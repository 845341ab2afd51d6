/** `http_parser_execute` as it runs: marks into the caller's buffer, bodies skipped in bulk, and the
    loop over the buffer. It is proved to do to the struct, and to tell the callbacks, exactly what
    the byte-at-a-time machine does, wherever the input is cut. */
module HttpExecute {
  import opened Bytes
  import opened HttpTypes
  import opened HttpSwitch
  import opened HttpStep
  import opened HttpInvariant

  // ---------- marks ----------

  datatype Mark = Null | At(pos: nat)

  datatype Marks = Marks(field: Mark, value: Mark, url: Mark, body: Mark) {
    function Get(part: Fragment): Mark {
      match part case Field => field case Value => value case Url => url case Body => body
    }
    function With(part: Fragment, m: Mark): Marks {
      match part
      case Field => this.(field := m)
      case Value => this.(value := m)
      case Url => this.(url := m)
      case Body => this.(body := m)
    }
  }

  const NO_MARKS := Marks(Null, Null, Null, Null)

  /** MARK: a mark that is already set stays where it is. */
  function SetMark(m: Marks, part: Fragment, i: nat): Marks {
    if m.Get(part).Null? then m.With(part, At(i)) else m
  }

  /** What a mark still owes its callback when the input has been read up to `i`. */
  function Owed(part: Fragment, m: Mark, data: string, i: nat): seq<Event>
    requires i <= |data|
  {
    if m.At? && m.pos <= i then [Data(part, data[m.pos..i])] else []
  }

  function Pending(m: Marks, data: string, i: nat): seq<Event>
    requires i <= |data|
  {
    Owed(Field, m.field, data, i) + Owed(Value, m.value, data, i) + Owed(Url, m.url, data, i)
      + Owed(Body, m.body, data, i)
  }

  /** At most the mark of `part` is set, and it lies before `i`. */
  predicate Only(m: Marks, part: Fragment, i: nat) {
    m == NO_MARKS.With(part, m.Get(part)) && (m.Get(part).At? ==> m.Get(part).pos <= i)
  }

  predicate InBodyState(s: State) { TakesBody(s) || s.ChunkDataAlmostDone? }

  /** At most one mark is live, and the state tells which. */
  predicate MarksMatch(m: Marks, s: State, i: nat) {
    match Live(s)
    case Of(part) => Only(m, part, i) && m.Get(part).At?
    case NoPart => if InBodyState(s) then Only(m, Body, i) else m == NO_MARKS
  }

  /** The marks behind a character: a part that stays live keeps its mark, another is marked there. */
  function MarksMoved(m: Marks, before: State, after: State, i: nat): Marks {
    match Live(after)
    case Of(part) => NO_MARKS.With(part, if Live(before) == Of(part) then m.Get(part) else At(i))
    case NoPart => NO_MARKS
  }

  /** The marks behind body bytes skipped in bulk, that are taken from `i` on. */
  function MarksSkipped(m: Marks, after: State, i: nat): Marks {
    if InBodyState(after) then SetMark(m, Body, i) else NO_MARKS
  }

  /** The marks a call starts with: the fragment that was live goes on at the start of the buffer. */
  function StartMarks(s: State): Marks {
    match Live(s) case Of(part) => NO_MARKS.With(part, At(0)) case NoPart => NO_MARKS
  }

  lemma PendingOnly(m: Marks, part: Fragment, data: string, i: nat)
    requires i <= |data| && Only(m, part, i)
    ensures Pending(m, data, i) == Owed(part, m.Get(part), data, i)
  {}

  lemma PendingNone(data: string, i: nat)
    requires i <= |data|
    ensures Pending(NO_MARKS, data, i) == []
  {}

  // ---------- what the macros do ----------

  /** The callbacks made by an arm's macros at position `i`. */
  function Delivered(acts: Macros, m: Marks, data: string, i: nat): seq<Event>
    requires i <= |data|
  {
    match acts
    case Flushed(part) => Owed(part, m.Get(part), data, i)
    case MarkedFlushed(part) => Owed(part, SetMark(m, part, i).Get(part), data, i)
    case Notified(e) => [e]
    case _ => []
  }

  function MarksAfter(acts: Macros, m: Marks, i: nat): Marks {
    match acts
    case Marked(part) => SetMark(m, part, i)
    case Flushed(part) => m.With(part, Null)
    case MarkedFlushed(part) => m.With(part, Null)
    case _ => m
  }

  lemma OwedGrows(t: seq<Event>, part: Fragment, pos: nat, data: string, i: nat)
    requires pos <= i < |data|
    ensures Absorb(Absorb(t, Owed(part, At(pos), data, i)), [Data(part, [data[i]])])
         == Absorb(t, Owed(part, At(pos), data, i + 1))
  {
    hide Push, Absorb;
    var front, all := data[pos..i], data[pos..i + 1];
    Absorb1(t, Data(part, front));
    Absorb1(Push(t, Data(part, front)), Data(part, [data[i]]));
    PushPush(t, part, front, [data[i]]);
    assert front + [data[i]] == all;
    Absorb1(t, Data(part, all));
  }

  /** The calls made plus what the marks owe change by what the byte machine records for the macros. */
  ghost predicate Accounted(log: seq<Event>, m: Marks, a: Arm, data: string, i: nat)
    requires i < |data|
  {
    var log' := log + Delivered(a.acts, m, data, i);
    var m' := MarksAfter(a.acts, m, i);
    && MarksMatch(m', a.p.state, i)
    && (Live(a.p.state).NoPart? ==> m' == NO_MARKS)
    && Absorb(Absorb(Merged(log), Pending(m, data, i)), ActEvents(a.acts)) == Absorb(Merged(log'), Pending(m', data, i))
  }

  /** What the macros do to the marks alone. */
  lemma MarksStep(m: Marks, s: State, a: Arm, i: nat)
    requires MarksOk(s, a) && !a.next.Error? && !TakesBody(s) && MarksMatch(m, s, i)
    ensures var m' := MarksAfter(a.acts, m, i);
            && MarksMatch(m', a.p.state, i) && (Live(a.p.state).NoPart? ==> m' == NO_MARKS)
            && match a.acts
               case Quiet => m' == m
               case Marked(part) => m == NO_MARKS && Only(m', part, i) && m'.Get(part) == At(i)
               case Flushed(part) => Only(m, part, i) && m' == NO_MARKS
               case MarkedFlushed(part) => m == m' == NO_MARKS && SetMark(m, part, i).Get(part) == At(i)
               case Notified(e) => m == m' == NO_MARKS
               case _ => false
  {
  }

  /** Where a character's re-executions have got to: `m` and `before` were there first. Marks are given up
      on the way only where nothing can fail any more. */
  predicate Moving(m: Marks, before: State, m': Marks, s: State, c: char) {
    || (s == before && m' == m)
    || (Live(s).NoPart? && m' == NO_MARKS
        && ((m == NO_MARKS && Live(before).NoPart?) || (s.HeaderAlmostDone? && c == LF)))
  }

  lemma MovingStarts(m: Marks, s: State, c: char)
    ensures Moving(m, s, m, s, c)
  {}

  /** Of the arms of a live part only one re-executes its character. */
  lemma LiveReexecutes(p: Parser, c: char)
    requires Live(p.state).Of? && Switch(p, c).next.Reexecute?
    ensures Switch(p, c).p.state.HeaderAlmostDone? && c == LF
  {
    hide MethodString, WordOf, UrlChar;
  }

  lemma LineEnds(p: Parser)
    requires p.state.HeaderAlmostDone?
    ensures var a := Switch(p, LF); a.next.Break? && a.acts.Quiet? && Live(a.p.state).NoPart?
  {
  }

  lemma MovingOn(m: Marks, before: State, m': Marks, p: Parser, c: char, i: nat)
    requires Moving(m, before, m', p.state, c) && MarksMatch(m', p.state, i) && !TakesBody(p.state)
    ensures var a := Switch(p, c);
            && (a.next.Error? ==> m' == m)
            && (a.next.Break? || a.next.Leave? ==> MarksAfter(a.acts, m', i) == MarksMoved(m, before, a.p.state, i))
            && (a.next.Reexecute? ==> Moving(m, before, MarksAfter(a.acts, m', i), a.p.state, c))
  {
    hide Switch, Live, TakesBody;
    var a := Switch(p, c);
    if p.state.HeaderAlmostDone? && c == LF { LineEnds(p); }
    if !a.next.Error? {
      ArmMarks(p, c);
      MarksStep(m', p.state, a, i);
      if a.next.Reexecute? && Live(p.state).Of? { LiveReexecutes(p, c); }
    }
  }

  lemma OwedNothing(part: Fragment, data: string, i: nat)
    requires i <= |data|
    ensures Owed(part, At(i), data, i) == [Data(part, "")]
  {
    assert data[i..i] == "";
  }

  lemma MarkedAccount(log: seq<Event>, m: Marks, s: State, a: Arm, data: string, i: nat)
    requires i < |data| && MarksOk(s, a) && !a.next.Error? && !TakesBody(s) && MarksMatch(m, s, i)
    requires a.acts.Quiet? || a.acts.Marked?
    ensures Accounted(log, m, a, data, i)
  {
    hide Absorb, Pending, Owed, MarksOk, MarksMatch, MarksAfter, Merged;
    MarksStep(m, s, a, i);
    assert log + Delivered(a.acts, m, data, i) == log;
    if a.acts.Quiet? {
      AbsorbNothing(Absorb(Merged(log), Pending(m, data, i)));
    } else {
      PendingNone(data, i);
      PendingOnly(MarksAfter(a.acts, m, i), a.acts.part, data, i);
      OwedNothing(a.acts.part, data, i);
      AbsorbNothing(Merged(log));
    }
  }

  lemma FlushedAccount(log: seq<Event>, m: Marks, s: State, a: Arm, data: string, i: nat)
    requires i < |data| && MarksOk(s, a) && !a.next.Error? && !TakesBody(s) && MarksMatch(m, s, i)
    requires a.acts.Flushed?
    ensures Accounted(log, m, a, data, i)
  {
    hide Absorb, Pending, Owed, MarksOk, MarksMatch, MarksAfter;
    MarksStep(m, s, a, i);
    var d := Delivered(a.acts, m, data, i);
    AbsorbConcat([], log, d);
    PendingOnly(m, a.acts.part, data, i);
    PendingNone(data, i);
    AbsorbNothing(Absorb(Merged(log), d));
  }

  lemma NotedAccount(log: seq<Event>, m: Marks, s: State, a: Arm, data: string, i: nat)
    requires i < |data| && MarksOk(s, a) && !a.next.Error? && !TakesBody(s) && MarksMatch(m, s, i)
    requires a.acts.MarkedFlushed? || a.acts.Notified?
    ensures Accounted(log, m, a, data, i)
  {
    hide Absorb, Pending, Owed, MarksOk, MarksMatch, MarksAfter, SetMark;
    MarksStep(m, s, a, i);
    var d := Delivered(a.acts, m, data, i);
    AbsorbConcat([], log, d);
    PendingNone(data, i);
    if a.acts.MarkedFlushed? { OwedNothing(a.acts.part, data, i); }
    AbsorbNothing(Merged(log));
    AbsorbNothing(Absorb(Merged(log), d));
  }

  /** The macros' own account, before the character is added. */
  lemma ActsAccount(log: seq<Event>, m: Marks, s: State, a: Arm, data: string, i: nat)
    requires i < |data|
    requires MarksOk(s, a) && !a.next.Error? && !TakesBody(s) && MarksMatch(m, s, i)
    ensures Accounted(log, m, a, data, i)
  {
    hide Absorb, Accounted, MarksMatch;
    if a.acts.Quiet? || a.acts.Marked? { MarkedAccount(log, m, s, a, data, i); }
    else if a.acts.Flushed? { FlushedAccount(log, m, s, a, data, i); }
    else { NotedAccount(log, m, s, a, data, i); }
  }

  lemma AbsorbNothing(t: seq<Event>)
    ensures Absorb(t, []) == t
  {}

  /** The calls made plus what the marks owe, for an arm of an ordinary state: the macros change the
      account by exactly the events the byte machine records for the character. */
  lemma MacrosAccount(log: seq<Event>, m: Marks, s: State, a: Arm, data: string, i: nat)
    requires i < |data|
    requires MarksOk(s, a) && !a.next.Error? && !TakesBody(s) && MarksMatch(m, s, i)
    ensures var log' := log + Delivered(a.acts, m, data, i);
            var m' := MarksAfter(a.acts, m, i);
            && MarksMatch(m', a.p.state, i)
            && (Live(a.p.state).NoPart? ==> m' == NO_MARKS)
            && Absorb(Absorb(Merged(log), Pending(m, data, i)), Emitted(s, data[i], a))
               == Absorb(Merged(log'), Pending(m', data, if a.next.Break? then i + 1 else i))
  {
    hide Absorb, Pending, Delivered, MarksAfter, Owed;
    ActsAccount(log, m, s, a, data, i);
    var t := Absorb(Merged(log), Pending(m, data, i));
    var t' := Merged(log + Delivered(a.acts, m, data, i));
    var m' := MarksAfter(a.acts, m, i);
    var own := OwnEvents(Owner(s, a), data[i]);
    AbsorbConcat(t, ActEvents(a.acts), own);
    match Owner(s, a)
    case Of(part) =>
      PendingOnly(m', part, data, i);
      PendingOnly(m', part, data, i + 1);
      OwedGrows(t', part, m'.Get(part).pos, data, i);
    case NoPart =>
      AbsorbNothing(Absorb(t, ActEvents(a.acts)));
      PendingSame(data, i);
  }

  /** Nothing is owed more for a character that belongs to no fragment. */
  lemma PendingSame(data: string, i: nat)
    requires i < |data|
    ensures Pending(NO_MARKS, data, i) == Pending(NO_MARKS, data, i + 1)
  {}

  // ---------- bodies in bulk ----------

  /** The struct after `k` bytes of a body, the message's end aside. */
  function BodyTaken(p: Parser, k: nat): Parser
    requires k <= p.contentLength
  {
    var q := p.(contentLength := p.contentLength - k);
    if p.state.ChunkData? && q.contentLength == 0 then q.(state := ChunkDataAlmostDone) else q
  }

  lemma BodyStep(p: Parser, ch: char)
    requires TakesBody(p.state)
    requires p.state.BodyIdentityEof? || p.contentLength > 0
    ensures var o := Step(p, ch);
            if p.state.BodyIdentityEof? then o == Outcome(p, [Data(Body, ""), Data(Body, [ch])], false)
            else if p.state.BodyIdentity? && p.contentLength == 1 then
              var q := p.(contentLength := 0, state := MessageDone);
              o == Outcome(q.(state := NewMessage(q)), [Data(Body, ""), Data(Body, [ch]), MessageComplete], false)
            else o == Outcome(BodyTaken(p, 1), [Data(Body, ""), Data(Body, [ch])], false)
  {
    hide ShouldKeepAlive;
    var a := SwitchFor(p, ch);
    if p.state.BodyIdentity? && p.contentLength == 1 {
      var q := p.(contentLength := 0, state := MessageDone);
      assert a == Arm(q, MarkedDelivered(Body), Reexecute);
      MessageDoneStep(q, ch);
    }
  }

  /** In a body the switch is its body arms, and no byte is counted as a header byte. */
  lemma SwitchFor(p: Parser, ch: char) returns (a: Arm)
    requires TakesBody(p.state)
    ensures a == (if p.state.ChunkData? then SwitchChunk(p, ch) else SwitchBody(p, ch))
    ensures a == Switch(p, ch) && Step(p, ch) == Dispatch(p, ch)
  {
    hide Dispatch, SwitchChunk, SwitchBody;
    a := Switch(p, ch);
  }

  lemma MessageDoneStep(p: Parser, ch: char)
    requires p.state.MessageDone?
    ensures Dispatch(p, ch) == Outcome(p.(state := NewMessage(p)), [MessageComplete], false)
  {
    hide ShouldKeepAlive;
    assert Switch(p, ch) == SwitchBody(p, ch) == Complete(p, Break);
  }

  /** Marking an empty body fragment and delivering one byte is delivering the byte. */
  lemma BodyByte(t: seq<Event>, ch: char, rest: seq<Event>)
    ensures Absorb(t, [Data(Body, ""), Data(Body, [ch])] + rest) == Absorb(Push(t, Data(Body, [ch])), rest)
  {
    hide Push;
    var two := [Data(Body, ""), Data(Body, [ch])];
    AbsorbConcat(t, two, rest);
    AbsorbConcat(t, [Data(Body, "")], [Data(Body, [ch])]);
    assert two == [Data(Body, "")] + [Data(Body, [ch])];
    Absorb1(t, Data(Body, ""));
    Absorb1(Push(t, Data(Body, "")), Data(Body, [ch]));
    PushPush(t, Body, "", [ch]);
    assert "" + [ch] == [ch];
  }

  /** The bulk skip is the byte machine run over the skipped bytes: part of a body... */
  lemma {:induction false} BodyRun(c: Config, w: string)
    requires !Stopped(c) && TakesBody(c.p.state) && w != []
    requires c.p.state.BodyIdentity? ==> |w| < c.p.contentLength
    requires c.p.state.ChunkData? ==> |w| <= c.p.contentLength
    ensures var q := if c.p.state.BodyIdentityEof? then c.p else BodyTaken(c.p, |w|);
            Feed(c, w) == Config(q, Push(c.t, Data(Body, w)), false)
    decreases |w|
  {
    hide Step, Push;
    BodyStep(c.p, w[0]);
    BodyByte(c.t, w[0], []);
    assert [Data(Body, ""), Data(Body, [w[0]])] + [] == [Data(Body, ""), Data(Body, [w[0]])];
    AbsorbNothing(Push(c.t, Data(Body, [w[0]])));
    var d := After(c, w[0]);
    if |w| == 1 {
      assert w == [w[0]] && w[1..] == [];
      assert Feed(d, []) == d;
    } else {
      BodyRun(d, w[1..]);
      PushPush(c.t, Body, [w[0]], w[1..]);
      assert [w[0]] + w[1..] == w;
    }
  }

  /** ... and all of it, when Content-Length said how long it is. */
  lemma BodyRunToEnd(c: Config, w: string)
    requires !Stopped(c) && c.p.state.BodyIdentity? && w != [] && |w| == c.p.contentLength
    ensures var q := c.p.(contentLength := 0, state := MessageDone);
            Feed(c, w) == Config(q.(state := NewMessage(q)), Push(Push(c.t, Data(Body, w)), MessageComplete), false)
  {
    hide Step, Push, NewMessage;
    var n := |w| - 1;
    var front, last := w[..n], w[n];
    assert w == front + [last];
    FeedConcat(c, front, [last]);
    if n > 0 { BodyRun(c, front); }
    var d := Feed(c, front);
    BodyStep(d.p, last);
    BodyByte(d.t, last, [MessageComplete]);
    assert [Data(Body, ""), Data(Body, [last]), MessageComplete]
           == [Data(Body, ""), Data(Body, [last])] + [MessageComplete];
    Absorb1(Push(d.t, Data(Body, [last])), MessageComplete);
    assert Feed(d, [last]) == Feed(After(d, last), []) == After(d, last);
    if n > 0 { PushPush(c.t, Body, front, [last]); } else { assert w == [last]; }
  }

  // ---------- what is being marked ----------

  /** The part being marked when `i` characters of a buffer have been read. */
  ghost function PartAt(c: Config, data: string, i: nat): OptFragment
    requires i <= |data|
  {
    var s := Feed(c, data[..i]).p.state;
    if InBodyState(s) then Of(Body) else Live(s)
  }

  /** Where its mark is: as far back as the part goes, or as the buffer does. */
  ghost function Since(c: Config, data: string, i: nat): (k: nat)
    requires i <= |data|
    ensures k <= i
  {
    if i == 0 then 0
    else if PartAt(c, data, i - 1) == PartAt(c, data, i) then Since(c, data, i - 1)
    else if PartAt(c, data, i) == Of(Body) then i
    else i - 1
  }

  /** The fragment marked so far: the text since the mark, and nothing where no part is being marked. */
  ghost function Marking(c: Config, data: string, i: nat): (es: seq<Event>)
    requires i <= |data|
    ensures PartAt(c, data, i).NoPart? ==> es == []
  {
    match PartAt(c, data, i)
    case Of(part) =>
      var k := Since(c, data, i);
      if part.Body? && k == i then [] else [Data(part, data[k..i])]
    case NoPart => []
  }

  /** The marks of the loop are where the states read so far say. */
  ghost predicate Located(m: Marks, c: Config, data: string, i: nat)
    requires i <= |data|
  {
    match PartAt(c, data, i)
    case Of(part) =>
      var k := Since(c, data, i);
      m == if part.Body? && k == i then NO_MARKS else NO_MARKS.With(part, At(k))
    case NoPart => m == NO_MARKS
  }

  lemma LocatedMarking(m: Marks, c: Config, data: string, i: nat)
    requires i <= |data| && Located(m, c, data, i)
    ensures Pending(m, data, i) == Marking(c, data, i)
  {
    hide PartAt, Since, Feed;
  }

  lemma LocatedStarts(c: Config, data: string)
    ensures Located(StartMarks(c.p.state), c, data, 0)
  {
    assert data[..0] == "";
  }

  lemma ChunkDataEnds(c: Config, ch: char)
    requires !Stopped(c) && c.p.state.ChunkDataAlmostDone? && After(c, ch).p.errno.Ok?
    ensures After(c, ch).p.state.ChunkDataDone?
  {
    hide Absorb;
    DispatchOnce(c.p, ch);
    assert Switch(c.p, ch) == SwitchChunk(c.p, ch);
  }

  lemma LocatedStep(c: Config, data: string, i: nat, m: Marks)
    requires i < |data| && Located(m, c, data, i)
    requires var b, d := Feed(c, data[..i]), Feed(c, data[..i + 1]);
             && !TakesBody(b.p.state) && (InBodyState(b.p.state) ==> !InBodyState(d.p.state))
    ensures var b, d := Feed(c, data[..i]), Feed(c, data[..i + 1]);
            Located(MarksMoved(m, b.p.state, d.p.state, i), c, data, i + 1)
  {
    hide Feed, Live;
    BodyNotLive(Feed(c, data[..i]).p.state);
    BodyNotLive(Feed(c, data[..i + 1]).p.state);
  }

  lemma BodyNotLive(s: State)
    ensures InBodyState(s) ==> Live(s).NoPart?
    ensures Live(s) != Of(Body)
  {
  }

  /** The states inside a run of body bytes. */
  lemma BodyInside(c: Config, w: string, k: nat)
    requires !Stopped(c) && TakesBody(c.p.state) && k < |w|
    requires !c.p.state.BodyIdentityEof? ==> |w| <= c.p.contentLength
    ensures InBodyState(Feed(c, w[..k]).p.state)
  {
    if k == 0 { assert w[..0] == ""; } else { BodyRun(c, w[..k]); }
  }

  lemma {:induction false} LocatedInside(c: Config, data: string, i: nat, j: nat)
    requires i <= j <= |data| && forall k :: i <= k <= j ==> PartAt(c, data, k) == Of(Body)
    ensures Since(c, data, j) == Since(c, data, i)
    decreases j
  {
    if i < j { LocatedInside(c, data, i, j - 1); }
  }

  lemma LocatedBody(c: Config, data: string, i: nat, j: nat, m: Marks)
    requires i < j <= |data| && Located(m, c, data, i)
    requires var b := Feed(c, data[..i]);
             && !Stopped(b) && TakesBody(b.p.state) && (!b.p.state.BodyIdentityEof? ==> j - i <= b.p.contentLength)
    requires var s := Feed(c, data[..j]).p.state; InBodyState(s) || Live(s).NoPart?
    ensures Located(MarksSkipped(m, Feed(c, data[..j]).p.state, i), c, data, j)
  {
    hide Feed, Live, InBodyState, Stopped, TakesBody;
    var b, w := Feed(c, data[..i]), data[i..j];
    if InBodyState(Feed(c, data[..j]).p.state) {
      forall k | i <= k <= j ensures PartAt(c, data, k) == Of(Body) {
        if k < j {
          BodyInside(b, w, k - i);
          assert w[..k - i] == data[i..k] && data[..k] == data[..i] + data[i..k];
          FeedConcat(c, data[..i], data[i..k]);
        }
      }
      LocatedInside(c, data, i, j);
    }
  }

  lemma FeedOn(c: Config, data: string, i: nat, j: nat)
    requires i <= j <= |data|
    ensures Feed(c, data[..j]) == Feed(Feed(c, data[..i]), data[i..j])
  {
    hide Feed;
    assert data[..j] == data[..i] + data[i..j];
    FeedConcat(c, data[..i], data[i..j]);
  }

  /** One character of an ordinary state moves the marks from where they are to where they are. */
  lemma CharLocated(c: Config, data: string, i: nat, m: Marks)
    requires i < |data| && Located(m, c, data, i)
    requires var b := Feed(c, data[..i]); !Stopped(b) && !TakesBody(b.p.state)
    ensures var b := Feed(c, data[..i]);
            var d := After(b, data[i]);
            && Feed(c, data[..i + 1]) == d
            && (d.p.errno.Ok? ==> Located(MarksMoved(m, b.p.state, d.p.state, i), c, data, i + 1))
  {
    hide After, Located, MarksMoved, Live;
    var b := Feed(c, data[..i]);
    FeedOn(c, data, i, i + 1);
    FeedSingle(b, data[i..i + 1]);
    var d := After(b, data[i]);
    if d.p.errno.Ok? {
      if b.p.state.ChunkDataAlmostDone? { ChunkDataEnds(b, data[i]); }
      LocatedStep(c, data, i, m);
    }
  }

  lemma FeedSingle(c: Config, w: string)
    requires |w| == 1 && !Stopped(c)
    ensures Feed(c, w) == After(c, w[0])
  {
    hide After;
    assert Feed(After(c, w[0]), w[1..]) == After(c, w[0]);
  }

  /** And so do body bytes taken at once. */
  lemma BulkLocated(c: Config, data: string, i: nat, j: nat, m: Marks)
    requires i < j <= |data| && Located(m, c, data, i)
    requires var b := Feed(c, data[..i]);
             && !Stopped(b) && TakesBody(b.p.state) && (!b.p.state.BodyIdentityEof? ==> 0 < j - i <= b.p.contentLength)
    ensures var d := Feed(Feed(c, data[..i]), data[i..j]);
            Feed(c, data[..j]) == d && Located(MarksSkipped(m, d.p.state, i), c, data, j)
  {
    hide Feed, Located, MarksSkipped, Live, InBodyState, NewMessage;
    var b, w := Feed(c, data[..i]), data[i..j];
    FeedOn(c, data, i, j);
    if b.p.state.BodyIdentity? && |w| == b.p.contentLength {
      BodyRunToEnd(b, w);
      NewMessageState(b.p.(contentLength := 0, state := MessageDone));
    } else {
      BodyRun(b, w);
      InBody(Feed(b, w).p.state);
    }
    LocatedBody(c, data, i, j, m);
  }

  lemma NewMessageState(q: Parser)
    ensures Live(NewMessage(q)).NoPart? && !InBodyState(NewMessage(q))
  {
    hide ShouldKeepAlive;
  }

  lemma InBody(s: State)
    ensures TakesBody(s) || s.ChunkDataAlmostDone? ==> InBodyState(s)
  {
  }

  lemma {:induction false} ConsumedConcat(c: Config, a: string, b: string)
    requires !Stopped(Feed(c, a))
    ensures Consumed(c, a + b) == |a| + Consumed(Feed(c, a), b)
    decreases |a|
  {
    hide Step;
    if a == [] {
      assert a + b == b;
    } else {
      assert !Stopped(c);
      assert (a + b)[1..] == a[1..] + b;
      var d := After(c, a[0]);
      ConsumedConcat(d, a[1..], b);
    }
  }
}
