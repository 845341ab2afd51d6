/** Safety over whole runs: the struct's invariant, the live fragment and the grammar of the calls. */
module HttpRun {
  import opened HttpTypes
  import opened HttpSwitch
  import opened HttpStep
  import opened HttpInvariant

  // ---------- merging does not change the phase ----------

  lemma AdvanceTwice(ph: Phase, part: Fragment, a: string, b: string)
    ensures Advance(Advance(ph, Data(part, a)), Data(part, b)) == Advance(ph, Data(part, a + b))
  {}

  lemma AdvancePush(ph: Phase, t: seq<Event>, e: Event)
    ensures AdvanceAll(ph, Push(t, e)) == Advance(AdvanceAll(ph, t), e)
  {
    hide Advance;
    Advance1(AdvanceAll(ph, t), e);
    AdvanceConcat(ph, t, [e]);
    if e.Data? && EndsWith(t, e.part) {
      var front, last := t[..|t| - 1], t[|t| - 1];
      assert t == front + [last];
      AdvanceConcat(ph, front, [last]);
      var long := Data(e.part, last.text + e.text);
      AdvanceConcat(ph, front, [long]);
      var mid := AdvanceAll(ph, front);
      Advance1(mid, last);
      Advance1(mid, long);
      AdvanceTwice(mid, e.part, last.text, e.text);
    }
  }

  lemma {:induction false} AdvanceAbsorb(ph: Phase, t: seq<Event>, es: seq<Event>)
    ensures AdvanceAll(ph, Absorb(t, es)) == AdvanceAll(AdvanceAll(ph, t), es)
    decreases |es|
  {
    hide Advance;
    if es != [] {
      AdvancePush(ph, t, es[0]);
      AdvanceAbsorb(ph, Push(t, es[0]), es[1..]);
    }
  }

  // ---------- one character ----------

  lemma PhaseOkGood(p: Parser, ph: Phase)
    requires PhaseOk(p, ph)
    ensures !ph.Bad?
  {}

  /** One character from a good state: the struct stays good unless an error is raised, the calls
      keep to the grammar either way, and a fragment that stays live has taken the character. */
  lemma {:induction false} DispatchKeeps(p: Parser, c: char, ph: Phase)
    requires Inv(p) && PhaseOk(p, ph)
    ensures var o := Dispatch(p, c);
            && !AdvanceAll(ph, o.events).Bad?
            && (o.p.errno.Ok? ==> Ready(o.p) && PhaseOk(o.p, AdvanceAll(ph, o.events)))
            && (o.left ==> o.p.errno.Ok?)
            && (o.p.errno.Ok? && Live(o.p.state).Of? ==>
                  o.events != [] && o.events[|o.events| - 1] == Data(Live(o.p.state).part, [c]))
    decreases Rank(p.state)
  {
    hide Switch, Advance, Ready, Inv, PhaseOk, Rank, MarksOk;
    var a := Switch(p, c);
    var es := Emitted(p.state, c, a);
    ArmStruct(p, c);
    PhaseOkGood(p, ph);
    if !a.next.Error? {
      ArmPhase(p, c, ph);
      AdvanceEmitted(ph, p.state, c, a);
      ArmMarks(p, c);
      PhaseOkGood(a.p, AdvanceAll(ph, es));
      if a.next.Reexecute? {
        ReexecutionDescends(p, c);
        DispatchKeeps(a.p, c, AdvanceAll(ph, es));
        AdvanceConcat(ph, es, Dispatch(a.p, c).events);
      } else {
        BreakOwns(p.state, c, a);
      }
    }
  }

  /** Between two characters a live fragment owns the character before. */
  lemma BreakOwns(s: State, c: char, a: Arm)
    requires MarksOk(s, a) && !a.next.Error? && !a.next.Reexecute?
    ensures Live(a.p.state).Of? ==>
              var es := Emitted(s, c, a); es != [] && es[|es| - 1] == Data(Live(a.p.state).part, [c])
  {}

  // ---------- whole inputs ----------

  /** What holds of a parser and its calls between any two characters. */
  predicate ConfigOk(c: Config) {
    && !AdvanceAll(Idle, c.t).Bad?
    && (c.p.errno.Ok? ==>
          && Ready(c.p)
          && PhaseOk(c.p, AdvanceAll(Idle, c.t))
          && (Live(c.p.state).Of? ==> EndsWith(c.t, Live(c.p.state).part)))
  }

  lemma InitOk(kind: Kind)
    ensures ConfigOk(Config(Init(kind), [], false))
  {}

  lemma CountedKeeps(p: Parser, ph: Phase)
    requires Ready(p) && PhaseOk(p, ph)
    requires ParsingHeader(p.state) ==> p.nread < MAX_HEADER_SIZE
    ensures Inv(Counted(p)) && PhaseOk(Counted(p), ph) && Asserts(Counted(p))
  { hide MethodString, WordOf; }

  lemma PushEnds(t: seq<Event>, e: Event)
    requires e.Data?
    ensures EndsWith(Push(t, e), e.part)
  {}

  lemma AfterKeeps(c: Config, ch: char)
    requires ConfigOk(c) && !Stopped(c)
    ensures ConfigOk(After(c, ch))
  {
    hide Dispatch, Ready, PhaseOk, Advance;
    var ph := AdvanceAll(Idle, c.t);
    var o := Step(c.p, ch);
    if ParsingHeader(c.p.state) && c.p.nread + 1 > MAX_HEADER_SIZE {
      assert After(c, ch).t == c.t;
    } else {
      CountedKeeps(c.p, ph);
      DispatchKeeps(Counted(c.p), ch, ph);
      AdvanceAbsorb(Idle, c.t, o.events);
      if o.p.errno.Ok? && Live(o.p.state).Of? {
        var n := |o.events| - 1;
        assert o.events == o.events[..n] + [o.events[n]];
        AbsorbConcat(c.t, o.events[..n], [o.events[n]]);
        Absorb1(Absorb(c.t, o.events[..n]), o.events[n]);
        PushEnds(Absorb(c.t, o.events[..n]), o.events[n]);
      }
    }
  }

  /** Every reachable state, on any input, satisfies the invariant; the calls keep to the grammar. */
  lemma {:induction false} FeedKeeps(c: Config, data: string)
    requires ConfigOk(c)
    ensures ConfigOk(Feed(c, data))
    decreases |data|
  {
    hide After, ConfigOk;
    if data != [] && !Stopped(c) {
      AfterKeeps(c, data[0]);
      FeedKeeps(After(c, data[0]), data[1..]);
    }
  }

  lemma RunsAreGood(kind: Kind, data: string)
    ensures var c := Feed(Config(Init(kind), [], false), data);
            && !AdvanceAll(Idle, c.t).Bad?
            && (c.p.errno.Ok? ==> Ready(c.p))
  {
    hide Step;
    InitOk(kind);
    FeedKeeps(Config(Init(kind), [], false), data);
  }

  // ---------- after the last message ----------

  lemma DeadStep(p: Parser, ch: char)
    requires p.state.Dead?
    ensures Step(p, ch).events == [] && !Step(p, ch).left
    ensures Step(p, ch).p.errno == p.errno ==> Step(p, ch).p.state.Dead?
  {
    assert Switch(Counted(p), ch) == SwitchStart(Counted(p), ch);
  }

  /** Once the parser is dead it makes no call, whatever it is fed. */
  lemma {:induction false} DeadIsSilent(c: Config, data: string)
    requires c.p.state.Dead?
    ensures Feed(c, data).t == c.t
    ensures Feed(c, data).p.errno.Ok? ==> Feed(c, data).p.state.Dead?
    decreases |data|
  {
    hide Step;
    if data != [] && !Stopped(c) {
      DeadStep(c.p, data[0]);
      var d := After(c, data[0]);
      assert d.t == c.t;
      if d.p.errno == Ok {
        DeadIsSilent(d, data[1..]);
      } else {
        assert Feed(d, data[1..]) == d;
      }
    }
  }

  /** A character that ends a message leaves the parser dead or ready for the next one, as
      http_should_keep_alive decided; in the first case nothing is ever reported again. */
  lemma NoCallAfterTheLastMessage(c: Config, data: string, more: string)
    requires Feed(c, data).p.state.Dead?
    ensures Feed(c, data + more).t == Feed(c, data).t
  {
    hide Step;
    FeedConcat(c, data, more);
    DeadIsSilent(Feed(c, data), more);
  }
}
