/** The parser object and `http_parser_execute`. */
module HttpParserObject {
  import opened HttpTypes
  import opened HttpSwitch
  import opened HttpStep
  import opened HttpInvariant
  import opened HttpRun
  import opened HttpExecute

  class HttpParser {
    var p: Parser
    /** Every callback made since the parser was initialised, as it was made. */
    var log: seq<Event>

    ghost function Cfg(): Config
      reads this
    {
      Config(p, Merged(log), false)
    }

    ghost predicate Valid()
      reads this
    {
      ConfigOk(Cfg())
    }

    constructor (kind: Kind)
      ensures Valid() && p == Init(kind) && log == []
    {
      p := Init(kind);
      log := [];
      new;
      InitOk(kind);
    }

    /** http_parser_init on a parser that has been used. */
    method Reset(kind: Kind)
      modifies this
      ensures Valid() && Cfg() == Config(Init(kind), [], false) && log == []
    {
      p := Init(kind);
      log := [];
      InitOk(kind);
    }

    /** One character of an ordinary state: `reexecute_byte` and the switch behind it. */
    method Byte(data: string, i: nat, m: Marks) returns (m': Marks, next: Next)
      requires i < |data| && Inv(p) && !TakesBody(p.state) && MarksMatch(m, p.state, i)
      modifies this
      ensures var o := Dispatch(old(p), data[i]); p == o.p && (next.Leave? <==> o.left)
      ensures next.Error? <==> !p.errno.Ok?
      ensures !next.Reexecute?
      ensures Absorb(Absorb(Merged(old(log)), Pending(m, data, i)), Dispatch(old(p), data[i]).events)
           == Absorb(Merged(log), Pending(m', data, if next.Break? then i + 1 else i))
      ensures MarksMatch(m', p.state, i + 1) || next.Error?
      ensures m' == if next.Error? then m else MarksMoved(m, old(p).state, p.state, i)
      ensures old(log) <= log
      ensures next.Leave? ==> m' == NO_MARKS
    {
      hide Absorb, Dispatch, Switch, Inv, Emitted, Pending, MarksMatch, MarksOk, Rank, Delivered, MarksAfter, Live,
        MarksMoved, Moving;
      m', next := m, Reexecute;
      ghost var pre: seq<Event> := [];
      ghost var t0 := Absorb(Merged(log), Pending(m, data, i));
      AbsorbNothing(t0);
      InvErrno(p);
      MovingStarts(m, p.state, data[i]);
      while next.Reexecute?
        invariant next.Reexecute? ==> Inv(p) && !TakesBody(p.state) && MarksMatch(m', p.state, i)
        invariant if next.Reexecute?
                  then var o := Dispatch(p, data[i]); Dispatch(old(p), data[i]) == Outcome(o.p, pre + o.events, o.left)
                  else Dispatch(old(p), data[i]) == Outcome(p, pre, next.Leave?)
        invariant Absorb(t0, pre) == Absorb(Merged(log), Pending(m', data, if next.Break? then i + 1 else i))
        invariant next.Error? <==> !p.errno.Ok?
        invariant next.Error? ==> m' == m
        invariant next.Break? || next.Leave? ==>
                  MarksMatch(m', p.state, i + 1) && m' == MarksMoved(m, old(p).state, p.state, i)
        invariant next.Reexecute? ==> Moving(m, old(p).state, m', p.state, data[i])
        invariant next.Leave? ==> m' == NO_MARKS
        invariant old(log) <= log
        decreases next.Reexecute?, Rank(p.state)
      {
        DispatchOnce(p, data[i]);
        ArmStruct(p, data[i]);
        InvErrno(p);
        var a := Switch(p, data[i]);
        MovingOn(m, old(p).state, m', p, data[i], i);
        if a.next.Error? {
          assert pre + [] == pre;
        } else {
          ArmMarks(p, data[i]);
          MacrosAccount(log, m', p.state, a, data, i);
          AbsorbConcat(t0, pre, Emitted(p.state, data[i], a));
          if a.next.Reexecute? { ReexecutionDescends(p, data[i]); InvErrno(a.p); ReexecuteState(p.state, a); }
          else { MatchLater(MarksAfter(a.acts, m', i), a.p.state, i); LeaveState(p.state, a); }
          ghost var o := Dispatch(a.p, data[i]);
          assert pre + (Emitted(p.state, data[i], a) + o.events) == (pre + Emitted(p.state, data[i], a)) + o.events;
          log, m' := log + Delivered(a.acts, m', data, i), MarksAfter(a.acts, m', i);
          pre := pre + Emitted(p.state, data[i], a);
        }
        p, next := a.p, a.next;
      }
    }

    /** The end of a counted body, at its last byte: hands over what is marked and re-executes s_message_done. */
    method CompleteBody(data: string, last: nat, m: Marks)
      requires last < |data| && Inv(p) && p.state.MessageDone? && Only(m, Body, last + 1)
      modifies this
      ensures p == old(p).(state := NewMessage(old(p))) && p.errno.Ok?
      ensures Live(p.state).NoPart? && !InBodyState(p.state)
      ensures Merged(log) == Push(Absorb(Merged(old(log)), Pending(m, data, last + 1)), MessageComplete)
      ensures old(log) <= log
    {
      hide Absorb, Push, Switch, Dispatch, NewMessage, Inv, Pending, Owed, Live, InBodyState, MarksMoved;
      log := log + Owed(Body, m.body, data, last + 1);
      BodyDelivered(old(log), m, data, last + 1);
      MessageDoneStep(p, data[last]);
      NewMessageState(p);
      InvErrno(p);
      ghost var t := Merged(log);
      PendingNone(data, last);
      AbsorbNothing(t);
      Absorb1(t, MessageComplete);
      NoneMatch(last);
      var m', next := Byte(data, last, NO_MARKS);
      assert m' == MarksMoved(NO_MARKS, MessageDone, p.state, last);
      NoneMoved(NO_MARKS, MessageDone, p.state, last);
      PendingNone(data, last + 1);
      AbsorbNothing(Merged(log));
    }

    /** The body states: as many bytes as the length and the buffer allow are skipped at once, and
        `last` is left at the last of them. */
    method BodyBytes(data: string, i: nat, m: Marks, ghost t: seq<Event>) returns (last: nat, m': Marks)
      requires i < |data| && Ready(p) && TakesBody(p.state) && MarksMatch(m, p.state, i)
      requires t == Absorb(Merged(log), Pending(m, data, i))
      modifies this
      ensures i <= last < |data| && MarksMatch(m', p.state, last + 1)
      ensures Feed(Config(old(p), t, false), data[i..last + 1])
           == Config(p, Absorb(Merged(log), Pending(m', data, last + 1)), false)
      ensures !old(p).state.BodyIdentityEof? ==> last + 1 - i <= old(p).contentLength
      ensures m' == MarksSkipped(m, p.state, i)
      ensures old(log) <= log
      ensures p.errno.Ok?
    {
      hide Absorb, Push, Switch, Dispatch, Feed, NewMessage, Ready, Inv, Pending, Owed;
      ghost var c := Config(p, t, false);
      m' := SetMark(m, Body, i);
      BodyReady(p);
      last := if p.state.BodyIdentityEof? || p.contentLength > |data| - i then |data| - 1 else i + p.contentLength - 1;
      ghost var w := data[i..last + 1];
      BodyOwed(log, m, p.state, data, i, last + 1);
      if p.state.BodyIdentityEof? {
        BodyRun(c, w);
      } else {
        p := p.(contentLength := p.contentLength - (last + 1 - i));
        if p.contentLength == 0 && p.state.BodyIdentity? {
          BodyRunToEnd(c, w);
          p := p.(state := MessageDone);
          CompleteBody(data, last, m');
          m' := NO_MARKS;
          PendingNone(data, last + 1);
          AbsorbNothing(Merged(log));
        } else {
          BodyRun(c, w);
          if p.contentLength == 0 { p := p.(state := ChunkDataAlmostDone); }
        }
      }
    }

    /** The callbacks for the marks that are left when the input runs out. */
    method Leftover(data: string, m: Marks)
      requires MarksMatch(m, p.state, |data|)
      modifies this`log
      ensures Merged(log) == Absorb(Merged(old(log)), Pending(m, data, |data|))
      ensures old(log) <= log
    {
      hide Absorb, Owed, MarksMatch;
      AbsorbConcat([], log, Pending(m, data, |data|));
      log := log + Owed(Field, m.field, data, |data|);
      log := log + Owed(Value, m.value, data, |data|);
      log := log + Owed(Url, m.url, data, |data|);
      log := log + Owed(Body, m.body, data, |data|);
      assert log == old(log) + Pending(m, data, |data|);
    }

    /** A call without data says that the input has ended. */
    method Eof() returns (n: nat)
      modifies this
      ensures p == if old(p).errno.Ok? && n == 1 then old(p).(errno := InvalidEofState) else old(p)
      ensures n == 1 <==> old(p).errno.Ok? && !old(p).state.BodyIdentityEof? && !old(p).state.Dead?
                          && !old(p).state.StartReqOrRes? && !old(p).state.StartRes? && !old(p).state.StartReq?
      ensures log == old(log) + if old(p).errno.Ok? && old(p).state.BodyIdentityEof? then [MessageComplete] else []
      ensures n <= 1
    {
      n := 0;
      if !p.errno.Ok? { return; }
      match p.state
      case BodyIdentityEof => log := log + [MessageComplete];
      case Dead => case StartReqOrRes => case StartRes => case StartReq =>
      case _ => p, n := p.(errno := InvalidEofState), 1;
    }

    /** One turn of the loop in an ordinary state: the header bytes are counted, then switched on. */
    method Ordinary(data: string, i: nat, m: Marks, ghost c: Config) returns (m': Marks, next: Next)
      requires i < |data| && ConfigOk(c) && !Stopped(c) && !TakesBody(p.state) && MarksMatch(m, p.state, i)
      requires c.p == p && c.t == Absorb(Merged(log), Pending(m, data, i))
      modifies this
      ensures var d := After(c, data[i]);
              && p == d.p && (next.Error? <==> !p.errno.Ok?) && (next.Leave? <==> d.left) && !next.Reexecute?
              && d.t == Absorb(Merged(log), Pending(m', data, if next.Break? then i + 1 else i))
      ensures MarksMatch(m', p.state, i + 1) || next.Error?
      ensures m' == if next.Error? then m else MarksMoved(m, old(p).state, p.state, i)
      ensures old(log) <= log
      ensures next.Leave? ==> m' == NO_MARKS
    {
      hide Absorb, Push, Switch, Dispatch, Ready, Pending, Owed, MarksMatch, MarksMoved, Live, PhaseOk, Inv;
      if ParsingHeader(p.state) {
        p := p.(nread := p.nread + 1);
        if p.nread > MAX_HEADER_SIZE {
          p := p.(errno := HeaderOverflow);
          AbsorbNothing(c.t);
          return m, Error;
        }
      }
      ConfigReady(c);
      CountedKeeps(c.p, AdvanceAll(Idle, c.t));
      assert Asserts(p);
      m', next := Byte(data, i, m);
    }

    /** One turn of the loop: an ordinary character, or as many body bytes as there are. */
    method Turn(data: string, i: nat, m: Marks, ghost c0: Config) returns (i': nat, m': Marks, next: Next)
      requires i < |data| && Reached(c0, data, i, m, p, log)
      modifies this
      ensures i' <= |data| && old(log) <= log && !next.Reexecute?
      ensures next.Break? ==> i < i' && Reached(c0, data, i', m', p, log)
      ensures !next.Break? ==>
                && i' == (if next.Leave? then i + 1 else i) && (next.Leave? <==> p.errno.Ok?)
                && Ended(c0, data, i, p, log, if next.Leave? then [] else Marking(c0, data, i))
    {
      hide Absorb, Push, Step, Pending, MarksMatch, MarksMoved, ConfigOk, MarksSkipped, Located, Marking, Feed;
      ghost var c := Feed(c0, data[..i]);
      if TakesBody(p.state) {
        ConfigReady(c);
        var last;
        last, m' := BodyBytes(data, i, m, c.t);
        i', next := last + 1, Break;
        BulkLocated(c0, data, i, i', m);
        FeedKeeps(c, data[i..i']);
      } else {
        AfterKeeps(c, data[i]);
        CharLocated(c0, data, i, m);
        m', next := Ordinary(data, i, m, c);
        i' := if next.Error? then i else i + 1;
        if next.Leave? { PendingNone(data, i); }
        if next.Error? { LocatedMarking(m, c0, data, i); }
      }
    }

    /** http_parser_execute on a non-empty buffer. The struct and the number of characters parsed are
        those of the byte machine. So are the calls, as long as no error is raised; after an error
        the fragment that was being marked at the character that failed, `lost`, has not been handed over. */
    method Execute(data: string) returns (n: nat, ghost lost: seq<Event>)
      requires Valid() && data != []
      modifies this
      ensures Valid()
      ensures var c := Feed(old(Cfg()), data);
              && p == c.p
              && n == Consumed(old(Cfg()), data)
              && Absorb(Merged(log), lost) == c.t
              && lost == (if p.errno.Ok? || Stopped(old(Cfg())) then [] else Marking(old(Cfg()), data, n))
              && (p.errno.Ok? ==> Cfg() == c.(left := false))
      ensures old(log) <= log
    {
      hide Absorb, Push, Step, Pending, ConfigOk, StartMarks, Marking, Reached, Ended, Feed, Consumed;
      ghost var c0 := Cfg();
      n, lost := 0, [];
      AbsorbNothing(Merged(log));
      if !p.errno.Ok? {
        StoppedFeeds(c0, data);
        return;
      }
      var m, next := StartMarks(p.state), Break;
      ReachedStarts(c0, data, log);
      while n < |data| && next.Break?
        invariant n <= |data| && old(log) <= log && !next.Reexecute?
        invariant next.Break? ==> Reached(c0, data, n, m, p, log) && lost == []
        invariant !next.Break? ==>
                    && (next.Leave? <==> p.errno.Ok?) && 0 <= (if next.Leave? then n - 1 else n) < |data|
                    && lost == (if next.Leave? then [] else Marking(c0, data, n))
                    && Ended(c0, data, if next.Leave? then n - 1 else n, p, log, lost)
        decreases next.Break?, |data| - n
      {
        n, m, next := Turn(data, n, m, c0);
        lost := if next.Error? then Marking(c0, data, n) else [];
      }
      if next.Break? {
        ReachedMatches(c0, data, m, p, log);
        Leftover(data, m);
        AbsorbNothing(Merged(log));
      } else {
        EndedStays(c0, data, if next.Leave? then n - 1 else n, p, log, lost);
      }
    }
  }

  /** The loop stands at `i`: the struct, the marks and the calls are those of the characters before. */
  ghost predicate Reached(c0: Config, data: string, i: nat, m: Marks, p: Parser, log: seq<Event>)
    requires i <= |data|
  {
    var c := Feed(c0, data[..i]);
    && c.p == p && !Stopped(c) && ConfigOk(c) && MarksMatch(m, p.state, i)
    && c.t == Absorb(Merged(log), Pending(m, data, i)) && Located(m, c0, data, i)
  }

  /** The loop was left at `i`, with `es` not handed over. */
  ghost predicate Ended(c0: Config, data: string, i: nat, p: Parser, log: seq<Event>, es: seq<Event>)
    requires i < |data|
  {
    var d := Feed(c0, data[..i + 1]);
    && !Stopped(Feed(c0, data[..i])) && Stopped(d) && ConfigOk(d) && d.p == p && d.t == Absorb(Merged(log), es)
  }

  lemma ReachedStarts(c0: Config, data: string, log: seq<Event>)
    requires ConfigOk(c0) && !Stopped(c0) && c0.t == Merged(log)
    ensures Reached(c0, data, 0, StartMarks(c0.p.state), c0.p, log)
  {
    hide ConfigOk, MarksMatch, Pending, Absorb, Located, StartMarks;
    assert data[..0] == "";
    StartOwesNothing(c0, StartMarks(c0.p.state), data, log);
    LocatedStarts(c0, data);
  }

  lemma ReachedMatches(c0: Config, data: string, m: Marks, p: Parser, log: seq<Event>)
    requires Reached(c0, data, |data|, m, p, log)
    ensures var c := Feed(c0, data);
            && c.p == p && p.errno.Ok? && !c.left && MarksMatch(m, p.state, |data|)
            && c.t == Absorb(Merged(log), Pending(m, data, |data|)) && ConfigOk(c.(left := false))
            && Consumed(c0, data) == |data|
  {
    hide Feed, ConfigOk, MarksMatch, Pending, Absorb, Located, Consumed;
    assert data[..|data|] == data;
    if Stopped(c0) { StoppedFeeds(c0, data); } else { ConsumedExactly(c0, data); }
    LeftAside(Feed(c0, data));
  }

  lemma LeftAside(c: Config)
    requires ConfigOk(c)
    ensures ConfigOk(c.(left := false))
  {
    hide Ready, PhaseOk, AdvanceAll;
  }

  lemma EndedStays(c0: Config, data: string, i: nat, p: Parser, log: seq<Event>, es: seq<Event>)
    requires i < |data| && Ended(c0, data, i, p, log, es) && (p.errno.Ok? ==> es == [])
    ensures var c := Feed(c0, data);
            && c.p == p && c.t == Absorb(Merged(log), es) && ConfigOk(Config(p, Merged(log), false))
            && Consumed(c0, data) == (if p.errno.Ok? then i + 1 else i)
            && (p.errno.Ok? ==> Merged(log) == c.t)
  {
    hide Feed, ConfigOk, Absorb, Step;
    var b, d := Feed(c0, data[..i]), Feed(c0, data[..i + 1]);
    assert data == data[..i + 1] + data[i + 1..] == data[..i] + data[i..];
    FeedConcat(c0, data[..i + 1], data[i + 1..]);
    StoppedFeeds(d, data[i + 1..]);
    ConsumedConcat(c0, data[..i], data[i..]);
    FeedOn(c0, data, i, i + 1);
    FeedSingle(b, data[i..i + 1]);
    StoppedOk(d, p, log, es);
  }

  /** Split invariance of the object: fed piece by piece, the parser ends with the struct, and unless an error
      was raised with the calls, that it would have ended with had it been given all at once. */
  method ExecutePieces(parser: HttpParser, pieces: seq<string>)
    requires parser.Valid() && forall i :: 0 <= i < |pieces| ==> pieces[i] != ""
    requires !Feed(parser.Cfg(), Flatten(pieces)).left
    modifies parser
    ensures parser.Valid()
    ensures var c := Feed(old(parser.Cfg()), Flatten(pieces));
            parser.p == c.p && (parser.p.errno.Ok? ==> parser.Cfg() == c)
  {
    hide Feed, ConfigOk, Merged;
    ghost var c := Feed(parser.Cfg(), Flatten(pieces));
    var i := 0;
    assert pieces[0..] == pieces;
    StoppedFeeds(parser.Cfg(), Flatten(pieces));
    while i < |pieces|
      invariant 0 <= i <= |pieces| && parser.Valid()
      invariant if parser.p.errno.Ok? then Feed(parser.Cfg(), Flatten(pieces[i..])) == c else parser.p == c.p
    {
      ghost var before := parser.Cfg();
      assert pieces[i..][0] == pieces[i] && pieces[i..][1..] == pieces[i + 1..];
      FeedConcat(before, pieces[i], Flatten(pieces[i + 1..]));
      var n, lost := parser.Execute(pieces[i]);
      StoppedFeeds(before, pieces[i]);
      StoppedFeeds(Feed(before, pieces[i]), Flatten(pieces[i + 1..]));
      i := i + 1;
    }
    NothingFed(parser.Cfg(), pieces);
  }

  lemma StoppedFeeds(c: Config, data: string)
    ensures Stopped(c) ==> Feed(c, data) == c && Consumed(c, data) == 0
  {}

  lemma NothingFed(c: Config, pieces: seq<string>)
    ensures Feed(c, Flatten(pieces[|pieces|..])) == c
  {
    assert pieces[|pieces|..] == [];
  }

  lemma NoneMatch(i: nat)
    ensures MarksMatch(NO_MARKS, MessageDone, i)
  {}

  lemma NoneMoved(m: Marks, before: State, after: State, i: nat)
    requires Live(after).NoPart?
    ensures MarksMoved(m, before, after, i) == NO_MARKS
  {}

  lemma InvErrno(p: Parser)
    requires Inv(p)
    ensures p.errno.Ok?
  { hide StateInv; }

  lemma MatchLater(m: Marks, s: State, i: nat)
    requires MarksMatch(m, s, i)
    ensures MarksMatch(m, s, i + 1)
  {}

  lemma ReexecuteState(s: State, a: Arm)
    requires MarksOk(s, a) && a.next.Reexecute?
    ensures !TakesBody(a.p.state)
  {}

  lemma LeaveState(s: State, a: Arm)
    requires MarksOk(s, a) && !TakesBody(s)
    ensures a.next.Leave? ==> Live(a.p.state).NoPart?
  {}

  lemma BodyReady(p: Parser)
    requires Ready(p) && TakesBody(p.state)
    ensures p.errno.Ok? && (p.state.BodyIdentityEof? || 0 < p.contentLength) && !p.flags.trailing
    ensures p.state.BodyIdentity? ==> Inv(p.(contentLength := 0, state := MessageDone))
  { hide MethodString, WordOf; }

  /** With the body marked, what is owed at `j` is what was owed at `i` and the bytes between. */
  lemma BodyOwed(log: seq<Event>, m: Marks, s: State, data: string, i: nat, j: nat)
    requires i < j <= |data| && TakesBody(s) && MarksMatch(m, s, i)
    ensures var m' := SetMark(m, Body, i);
            && Only(m', Body, j) && m'.body.At?
            && Absorb(Merged(log), Pending(m', data, j))
               == Push(Absorb(Merged(log), Pending(m, data, i)), Data(Body, data[i..j]))
  {
    hide Push;
    var m' := SetMark(m, Body, i);
    var pos := m'.body.pos;
    PendingOnly(m, Body, data, i);
    PendingOnly(m', Body, data, j);
    Absorb1(Merged(log), Data(Body, data[pos..j]));
    if m.body.At? {
      Absorb1(Merged(log), Data(Body, data[pos..i]));
      assert data[pos..i] + data[i..j] == data[pos..j];
      PushPush(Merged(log), Body, data[pos..i], data[i..j]);
    } else {
      AbsorbNothing(Merged(log));
    }
  }

  lemma BodyDelivered(log: seq<Event>, m: Marks, data: string, j: nat)
    requires j <= |data| && Only(m, Body, j)
    ensures Merged(log + Owed(Body, m.body, data, j)) == Absorb(Merged(log), Pending(m, data, j))
  {
    PendingOnly(m, Body, data, j);
    AbsorbConcat([], log, Owed(Body, m.body, data, j));
  }

  /** A call starts owing an empty fragment of the part that was being handed over, that is, nothing. */
  lemma StartOwesNothing(c: Config, m: Marks, data: string, log: seq<Event>)
    requires ConfigOk(c) && c.p.errno.Ok? && c.t == Merged(log) && m == StartMarks(c.p.state)
    ensures MarksMatch(m, c.p.state, 0)
    ensures c.t == Absorb(Merged(log), Pending(m, data, 0))
  {
    hide Push, Ready, PhaseOk;
    AbsorbNothing(c.t);
    match Live(c.p.state)
    case Of(part) =>
      PendingOnly(m, part, data, 0);
      assert data[0..0] == "";
      Absorb1(c.t, Data(part, ""));
      PushNothing(c.t, part);
    case NoPart => PendingNone(data, 0);
  }

  lemma {:induction false} BadStaysBad(es: seq<Event>)
    ensures AdvanceAll(Bad, es) == Bad
    decreases |es|
  {
    if es != [] { BadStaysBad(es[1..]); }
  }

  /** Leaving out the last fragment does not take the calls out of the grammar. */
  lemma LostKeeps(log: seq<Event>, lost: seq<Event>)
    requires !AdvanceAll(Idle, Absorb(Merged(log), lost)).Bad?
    ensures !AdvanceAll(Idle, Merged(log)).Bad?
  {
    hide Advance;
    AdvanceAbsorb(Idle, Merged(log), lost);
    if AdvanceAll(Idle, Merged(log)).Bad? { BadStaysBad(lost); }
  }

  lemma ConfigReady(c: Config)
    requires ConfigOk(c) && c.p.errno.Ok?
    ensures Ready(c.p) && PhaseOk(c.p, AdvanceAll(Idle, c.t))
    ensures ParsingHeader(c.p.state) ==> c.p.nread <= MAX_HEADER_SIZE
  {
    hide StateInv, PhaseOk;
  }

  lemma StoppedOk(d: Config, p: Parser, log: seq<Event>, lost: seq<Event>)
    requires ConfigOk(d) && d.p == p && d.t == Absorb(Merged(log), lost)
    requires p.errno.Ok? ==> lost == []
    ensures ConfigOk(Config(p, Merged(log), false))
    ensures p.errno.Ok? ==> Merged(log) == d.t
  {
    hide Ready, PhaseOk, Advance;
    LostKeeps(log, lost);
    if p.errno.Ok? { AbsorbNothing(Merged(log)); }
  }
}
