/** Header values: the flags they set, the length they give, and a whole header line. */
module HttpValues {
  import opened Bytes
  import opened HttpTypes
  import opened HttpSwitch
  import opened HttpStep
  import opened HttpExecute
  import opened HttpHeaders

  // ---------- the flags ----------

  /** `v` goes along `word` and then along blanks. */
  predicate Alive(v: string, word: string) {
    forall i :: 0 <= i < |v| ==> v[i] == if i < |word| then word[i] else ' '
  }

  /** `v` is `word`, perhaps with blanks behind it. */
  predicate IsWord(v: string, word: string) { Alive(v, word) && |word| <= |v| }

  /** The state follows the value along the word of the matcher `hm`. */
  predicate Follows(h: HeaderState, index: nat, v: string, hm: HeaderState) {
    && (Alive(v, WordOf(hm)) <==> h == hm || h == DoneOf(hm))
    && (h == hm ==> |v| == index + 1 < |WordOf(hm)|)
    && (h == DoneOf(hm) ==> |WordOf(hm)| <= |v|)
  }

  /** What a value, lower-cased to `v` so far, has made of the state `h0` the name left. */
  predicate ValueTracks(h0: HeaderState, h: HeaderState, index: nat, v: string) {
    if h0.IsTransferEncoding? then
      (h.MatchChunked? || h.IsChunked? || h.General?) && Follows(h, index, v, MatchChunked)
    else if h0.IsConnection? then
      && (h.MatchKeepAlive? || h.IsKeepAlive? || h.MatchClose? || h.IsClose? || h.General?)
      && Follows(h, index, v, MatchKeepAlive) && Follows(h, index, v, MatchClose)
    else if h0.IsContentLength? then h.IsContentLength?
    else h.General?
  }

  lemma AliveShrinks(v: string, c: char, word: string)
    requires Alive(v + [c], word)
    ensures Alive(v, word) && c == (if |v| < |word| then word[|v|] else ' ')
  {
    assert (v + [c])[|v|] == c;
    forall i | 0 <= i < |v| ensures v[i] == if i < |word| then word[i] else ' ' { assert (v + [c])[i] == v[i]; }
  }

  lemma AliveGrows(v: string, c: char, word: string)
    requires Alive(v, word) && c == (if |v| < |word| then word[|v|] else ' ')
    ensures Alive(v + [c], word)
  {}

  /** One more character, seen from the matcher `hm`; the state may belong to another matcher. */
  lemma FollowNext(p: Parser, c: char, v: string, hm: HeaderState)
    requires MatchesValue(hm) && Follows(p.headerState, p.index, v, hm) && c != CR && c != LF
    requires p.headerState.General? || MatchesValue(p.headerState) || p.headerState.IsChunked?
             || p.headerState.IsKeepAlive? || p.headerState.IsClose?
    ensures var q := ValueChar(p, c).p; Follows(q.headerState, q.index, v + [Lower(c)], hm)
  {
    hide WordOf, Alive;
    var q := ValueChar(p, c).p;
    var v' := v + [Lower(c)];
    if p.headerState == hm || p.headerState == DoneOf(hm) {
      if Lower(c) == (if |v| < |WordOf(hm)| then WordOf(hm)[|v|] else ' ') {
        AliveGrows(v, Lower(c), WordOf(hm));
      } else if Alive(v', WordOf(hm)) {
        AliveShrinks(v, Lower(c), WordOf(hm));
      }
    } else if Alive(v', WordOf(hm)) {
      AliveShrinks(v, Lower(c), WordOf(hm));
    }
  }

  lemma TrackValueNext(h0: HeaderState, p: Parser, c: char, v: string)
    requires ValueTracks(h0, p.headerState, p.index, v) && c != CR && c != LF && !h0.IsContentLength?
    ensures var a := ValueChar(p, c);
            && a.next.Break?
            && ValueTracks(h0, a.p.headerState, a.p.index, v + [Lower(c)])
            && a.p == p.(headerState := a.p.headerState, index := a.p.index)
  {
    hide WordOf, Follows;
    if h0.IsTransferEncoding? { FollowNext(p, c, v, MatchChunked); }
    if h0.IsConnection? { FollowNext(p, c, v, MatchKeepAlive); FollowNext(p, c, v, MatchClose); }
  }

  lemma TrackValueFirst(p: Parser, c: char)
    requires p.state.HeaderValue? && p.index == 0 && c != ' ' && !p.headerState.IsContentLength?
    ensures var a := ValueStart(p, c);
            && a.next.Break?
            && ValueTracks(p.headerState, a.p.headerState, 0, [Lower(c)])
            && a.p == p.(headerState := a.p.headerState,
               flags := p.flags.(upgrade := p.flags.upgrade || p.headerState.IsUpgrade?))
  {
    assert [Lower(c)][0] == Lower(c);
  }

  predicate NoBreaks(s: string) { forall i :: 0 <= i < |s| ==> s[i] != CR && s[i] != LF }

  predicate AllBlank(s: string) { forall i :: 0 <= i < |s| ==> s[i] == ' ' || s[i] == '\t' }

  /** A value as the parser hands it over: leading blanks have been skipped. */
  predicate IsValue(v: string) { NoBreaks(v) && (v != "" ==> v[0] != ' ' && v[0] != '\t') }

  /** More of a value that gives no length. */
  lemma {:induction false} ValueRun(c: Config, h0: HeaderState, v: string, value: string) returns (q: Parser)
    requires !c.left && Room(c.p, |value|) && c.p.state.HeaderValue? && NoBreaks(value) && !h0.IsContentLength?
    requires ValueTracks(h0, c.p.headerState, c.p.index, v)
    ensures q == c.p.(nread := c.p.nread + |value|, index := q.index, headerState := q.headerState)
    ensures ValueTracks(h0, q.headerState, q.index, v + LowerAll(value))
    ensures value != "" ==> Feed(c, value) == Config(q, Push(c.t, Data(Value, value)), false)
    ensures value == "" ==> q == c.p
    decreases |value|
  {
    hide Step, Push, ValueTracks, ValueChar, LowerAll, NoBreaks;
    LowerMore(v, value);
    if value == "" {
      q := c.p;
    } else {
      NoBreaksSplit(value);
      ValueOne(c, h0, v, value[0]);
      var d := After(c, value[0]);
      q := ValueRun(d, h0, v + [Lower(value[0])], value[1..]);
      ValueJoined(c.t, value);
      if |value| == 1 { assert Feed(d, value[1..]) == d; }
    }
  }

  lemma NoBreaksSplit(value: string)
    requires NoBreaks(value) && value != ""
    ensures value[0] != CR && value[0] != LF && NoBreaks(value[1..])
  {
  }

  lemma ValueJoined(t: seq<Event>, value: string)
    requires value != ""
    ensures Push(Push(t, Data(Value, [value[0]])), Data(Value, value[1..])) == Push(t, Data(Value, value))
    ensures |value| == 1 ==> value == [value[0]]
  {
    hide Push;
    PushPush(t, Value, [value[0]], value[1..]);
    assert [value[0]] + value[1..] == value;
  }

  lemma ValueOne(c: Config, h0: HeaderState, v: string, ch: char)
    requires !c.left && Room(c.p, 1) && c.p.state.HeaderValue? && ch != CR && ch != LF && !h0.IsContentLength?
    requires ValueTracks(h0, c.p.headerState, c.p.index, v)
    ensures var q := After(c, ch).p;
            && After(c, ch) == Config(q, Push(c.t, Data(Value, [ch])), false)
            && q == c.p.(nread := c.p.nread + 1, index := q.index, headerState := q.headerState)
            && ValueTracks(h0, q.headerState, q.index, v + [Lower(ch)])
  {
    hide Step, Push, ValueTracks, ValueChar;
    TrackValueNext(h0, Counted(c.p), ch, v);
    ValueNext(c.p, ch);
    Absorb1(c.t, Data(Value, [ch]));
  }

  lemma {:induction false} BlankRun(c: Config, blanks: string)
    requires !c.left && Room(c.p, |blanks|) && c.p.state.HeaderValueStart? && AllBlank(blanks)
    ensures Feed(c, blanks) == c.(p := c.p.(nread := c.p.nread + |blanks|))
    decreases |blanks|
  {
    hide Step;
    if blanks != "" {
      Blank(c.p, blanks[0]);
      AbsorbNothing(c.t);
      BlankRun(After(c, blanks[0]), blanks[1..]);
    }
  }

  /** The flags a recognised name and value set when the line ends. */
  function FlagsOf(f: Flags, h0: HeaderState, value: string): Flags {
    var v := LowerAll(value);
    f.(chunked := f.chunked || (h0.IsTransferEncoding? && IsWord(v, "chunked")),
       keepAlive := f.keepAlive || (h0.IsConnection? && IsWord(v, "keep-alive")),
       close := f.close || (h0.IsConnection? && IsWord(v, "close")),
       upgrade := f.upgrade || (h0.IsUpgrade? && value != ""))
  }

  lemma FlagsExactly(f: Flags, h0: HeaderState, h: HeaderState, index: nat, value: string)
    requires ValueTracks(h0, h, index, LowerAll(value)) && value != ""
    ensures ValueFlags(f.(upgrade := f.upgrade || h0.IsUpgrade?), h) == FlagsOf(f, h0, value)
  {
    hide Alive;
  }

  /** A state of the matcher that another line of the value makes nothing of. */
  predicate Spent(h: HeaderState) {
    !h.IsConnection? && !h.IsContentLength? && !h.IsTransferEncoding? && !h.IsUpgrade?
  }

  /** What ends a line: a line feed, with or without a carriage return. */
  predicate IsBreak(end: string) { end == CRLF || end == [LF] }

  /** The end of a line. */
  lemma LineEnd(c: Config, end: string)
    requires !c.left && Room(c.p, |end|) && c.p.state.HeaderValue? && IsBreak(end)
    ensures Feed(c, end) == c.(p := c.p.(nread := c.p.nread + |end|, state := HeaderValueLws,
                                         flags := ValueFlags(c.p.flags, c.p.headerState)))
  {
    hide Step;
    AbsorbNothing(c.t);
    if end == CRLF {
      ValueCr(c.p);
      var d := After(c, CR);
      LineLf(d.p);
      FeedTwo(c, CR, LF);
    } else {
      ValueLf(c.p);
      FeedOne(c, LF);
    }
  }

  lemma FeedTwo(c: Config, x: char, y: char)
    requires !Stopped(c) && !Stopped(After(c, x))
    ensures Feed(c, [x, y]) == After(After(c, x), y)
  {
    hide Step;
    assert [x, y][1..] == [y];
    var d := After(c, x);
    assert Feed(d, [y]) == Feed(After(d, y), []);
  }

  lemma FeedOne(c: Config, x: char)
    requires !Stopped(c)
    ensures Feed(c, [x]) == After(c, x)
  {
    hide Step;
    assert [x][1..] == [];
    assert Feed(After(c, x), []) == After(c, x);
  }

  /** A value that gives no length, with its blanks and the end of its line: it is handed over as it stands
      and the flags are set exactly when it is the word that goes with the name. */
  lemma ValueLine(c: Config, blanks: string, value: string, end: string) returns (q: Parser)
    requires !c.left && Room(c.p, |blanks| + |value| + |end|) && c.p.state.HeaderValueStart?
    requires AllBlank(blanks) && IsValue(value) && IsBreak(end) && (c.p.headerState.IsContentLength? ==> value == "")
    ensures Feed(c, blanks + value + end) == Config(q, Push(c.t, Data(Value, value)), false)
    ensures LineStart(q.state) && (value != "" || end == CRLF ==> q.state.HeaderValueLws? && Spent(q.headerState))
    ensures q == c.p.(nread := c.p.nread + |blanks| + |value| + |end|, state := q.state, index := q.index,
                      headerState := q.headerState, flags := FlagsOf(c.p.flags, c.p.headerState, value))
  {
    hide Step, Push, Feed, IsValue, AllBlank, FlagsOf;
    var b := Config(c.p.(nread := c.p.nread + |blanks|), c.t, false);
    BlankRun(c, blanks);
    FeedConcat(c, blanks, value + end);
    assert blanks + value + end == blanks + (value + end);
    if value == "" { q := EmptyLine(b, end); } else { q := FullLine(b, value, end); }
  }

  lemma EmptyLine(b: Config, end: string) returns (q: Parser)
    requires !b.left && IsBreak(end) && Room(b.p, |end|) && b.p.state.HeaderValueStart?
    ensures Feed(b, "" + end) == Config(q, Push(b.t, Data(Value, "")), false)
    ensures LineStart(q.state) && (end == CRLF ==> q.state.HeaderValueLws? && Spent(q.headerState))
    ensures q == b.p.(nread := b.p.nread + |end|, state := q.state, index := q.index, headerState := q.headerState,
                      flags := FlagsOf(b.p.flags, b.p.headerState, ""))
  {
    hide Step, Push, ValueTracks, ValueChar, ValueStart, ValueFlags;
    assert "" + end == end;
    Absorb1(b.t, Data(Value, ""));
    EmptyFlags(b.p.flags, b.p.headerState);
    if end == CRLF {
      EmptyValueCr(b.p);
      var d := After(b, CR);
      LineLf(d.p);
      AbsorbNothing(d.t);
      FeedTwo(b, CR, LF);
      q := After(d, LF).p;
    } else {
      EmptyValueLf(b.p);
      FeedOne(b, LF);
      q := After(b, LF).p;
    }
  }

  lemma FullLine(b: Config, value: string, end: string) returns (q: Parser)
    requires !b.left && IsBreak(end) && Room(b.p, |value| + |end|) && b.p.state.HeaderValueStart?
             && !b.p.headerState.IsContentLength?
    requires IsValue(value) && value != ""
    ensures Feed(b, value + end) == Config(q, Push(b.t, Data(Value, value)), false)
    ensures Spent(q.headerState)
    ensures q == b.p.(nread := b.p.nread + |value| + |end|, state := HeaderValueLws, index := q.index,
                      headerState := q.headerState, flags := FlagsOf(b.p.flags, b.p.headerState, value))
  {
    hide Step, Push, ValueTracks, ValueChar, ValueStart, ValueFlags, Spent;
    var h0 := b.p.headerState;
    ValueFirst(b.p, value[0]);
    var q0 := b.p.(nread := b.p.nread + 1, state := HeaderValue, index := 0);
    TrackValueFirst(q0, value[0]);
    FieldOpened(b.t, value[0]);
    var d := After(b, value[0]);
    q := ValueRun(d, h0, [Lower(value[0])], value[1..]);
    assert [Lower(value[0])] + LowerAll(value[1..]) == LowerAll(value);
    PushPush(b.t, Value, [value[0]], value[1..]);
    assert [value[0]] + value[1..] == value;
    var e := Config(q, Push(b.t, Data(Value, value)), false);
    assert (value + end)[0] == value[0] && (value + end)[1..] == value[1..] + end;
    FeedConcat(d, value[1..], end);
    if |value| == 1 { assert value[1..] == "" && value == [value[0]] && Feed(d, value[1..]) == d; }
    LineEnd(e, end);
    FlagsExactly(b.p.flags, h0, q.headerState, q.index, value);
    TracksSpent(h0, q.headerState, q.index, LowerAll(value));
    q := Feed(e, end).p;
  }

  lemma TracksSpent(h0: HeaderState, h: HeaderState, index: nat, v: string)
    requires ValueTracks(h0, h, index, v) && !h0.IsContentLength?
    ensures Spent(h)
  {
    hide Follows;
  }

  lemma EmptyFlags(f: Flags, h0: HeaderState)
    ensures ValueFlags(f, General) == f == FlagsOf(f, h0, "")
  {}
}
