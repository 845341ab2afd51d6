/** The parser as a byte-at-a-time machine over (struct, calls made so far), and what it means to
    feed it a string. Calls with data are recorded merged: a fragment that follows a fragment of
    the same part only lengthens it, which is all a receiver that appends can tell. */
module HttpStep {
  import opened HttpTypes
  import opened HttpSwitch

  // ---------- merged traces ----------

  function Push(t: seq<Event>, e: Event): seq<Event> {
    if e.Data? && t != [] && t[|t| - 1].Data? && t[|t| - 1].part == e.part
    then t[..|t| - 1] + [Data(e.part, t[|t| - 1].text + e.text)]
    else t + [e]
  }

  /** The calls `es`, made after the merged trace `t`. */
  function Absorb(t: seq<Event>, es: seq<Event>): seq<Event>
    decreases |es|
  {
    if es == [] then t else Absorb(Push(t, es[0]), es[1..])
  }

  /** The merged form of a sequence of calls. */
  function Merged(es: seq<Event>): seq<Event> { Absorb([], es) }

  predicate EndsWith(t: seq<Event>, part: Fragment) {
    t != [] && t[|t| - 1].Data? && t[|t| - 1].part == part
  }

  lemma {:induction false} AbsorbConcat(t: seq<Event>, a: seq<Event>, b: seq<Event>)
    ensures Absorb(t, a + b) == Absorb(Absorb(t, a), b)
    decreases |a|
  {
    if a == [] {
      assert a + b == b;
    } else {
      assert (a + b)[1..] == a[1..] + b;
      AbsorbConcat(Push(t, a[0]), a[1..], b);
    }
  }

  lemma Absorb1(t: seq<Event>, e: Event)
    ensures Absorb(t, [e]) == Push(t, e)
  {
    assert [e][1..] == [];
  }

  /** Two fragments of one part are one fragment. */
  lemma PushPush(t: seq<Event>, part: Fragment, a: string, b: string)
    ensures Push(Push(t, Data(part, a)), Data(part, b)) == Push(t, Data(part, a + b))
  {
    if EndsWith(t, part) {
      assert t[|t| - 1].text + a + b == t[|t| - 1].text + (a + b);
    }
  }

  /** An empty fragment of the part being handed over changes nothing. */
  lemma PushNothing(t: seq<Event>, part: Fragment)
    requires EndsWith(t, part)
    ensures Push(t, Data(part, "")) == t
  {
    assert t[|t| - 1].text + "" == t[|t| - 1].text;
  }

  // ---------- one character ----------

  /** The part whose mark is live between two characters in state `s`, bodies aside. */
  function Live(s: State): OptFragment {
    if s.HeaderField? then Of(Field)
    else if s.HeaderValue? then Of(Value)
    else if IsUrlState(s) then Of(Url)
    else NoPart
  }

  predicate TakesBody(s: State) { s.BodyIdentity? || s.BodyIdentityEof? || s.ChunkData? }

  /** The part the character itself belongs to. */
  function Owner(s: State, a: Arm): OptFragment {
    if TakesBody(s) then Of(Body)
    else if a.next.Break? then Live(a.p.state)
    else NoPart
  }

  function ActEvents(acts: Macros): seq<Event> {
    match acts
    case Marked(part) => [Data(part, "")]
    case MarkedFlushed(part) => [Data(part, "")]
    case MarkedDelivered(part) => [Data(part, "")]
    case Notified(e) => [e]
    case _ => []
  }

  function OwnEvents(owner: OptFragment, c: char): seq<Event> {
    match owner case Of(part) => [Data(part, [c])] case NoPart => []
  }

  /** What an arm amounts to when every fragment is handed over at once, character by character. */
  function Emitted(s: State, c: char, a: Arm): seq<Event> {
    if a.next.Error? then [] else ActEvents(a.acts) + OwnEvents(Owner(s, a), c)
  }

  datatype Outcome = Outcome(p: Parser, events: seq<Event>, left: bool)

  /** The switch with its re-executions. */
  function Dispatch(p: Parser, c: char): Outcome
    decreases Rank(p.state)
  {
    var a := Switch(p, c);
    if a.next.Reexecute? then
      ReexecutionDescends(p, c);
      var o := Dispatch(a.p, c);
      Outcome(o.p, Emitted(p.state, c, a) + o.events, o.left)
    else
      Outcome(a.p, Emitted(p.state, c, a), a.next.Leave?)
  }

  /** One arm of it. */
  lemma DispatchOnce(p: Parser, c: char)
    ensures var a := Switch(p, c);
            Dispatch(p, c) == if a.next.Reexecute? then
                                var o := Dispatch(a.p, c); Outcome(o.p, Emitted(p.state, c, a) + o.events, o.left)
                              else Outcome(a.p, Emitted(p.state, c, a), a.next.Leave?)
    ensures Switch(p, c).next.Error? ==> Emitted(p.state, c, Switch(p, c)) == []
  { hide Switch; }

  /** The body of the loop over the input: header bytes are counted first. */
  function Step(p: Parser, c: char): Outcome {
    if ParsingHeader(p.state) && p.nread + 1 > MAX_HEADER_SIZE
    then Outcome(p.(nread := p.nread + 1, errno := HeaderOverflow), [], false)
    else Dispatch(Counted(p), c)
  }

  function Counted(p: Parser): Parser {
    if ParsingHeader(p.state) then p.(nread := p.nread + 1) else p
  }

  // ---------- whole inputs ----------

  /** The struct, the merged calls so far, and whether the connection left HTTP (an upgrade). */
  datatype Config = Config(p: Parser, t: seq<Event>, left: bool)

  predicate Stopped(c: Config) { c.p.errno != Ok || c.left }

  function After(c: Config, ch: char): Config {
    var o := Step(c.p, ch);
    Config(o.p, Absorb(c.t, o.events), o.left)
  }

  function Feed(c: Config, data: string): Config
    decreases |data|
  {
    if data == [] || Stopped(c) then c else Feed(After(c, data[0]), data[1..])
  }

  lemma FeedRest(c: Config, s: string)
    requires s != "" && !Stopped(c)
    ensures Feed(c, s) == Feed(After(c, s[0]), s[1..])
  {
    hide Step;
  }

  /** How many characters http_parser_execute reports as parsed: the character that raised an
      error is not counted, the one that completed an upgrade is. */
  function Consumed(c: Config, data: string): (n: nat)
    ensures n <= |data|
    decreases |data|
  {
    if data == [] || Stopped(c) then 0
    else
      var d := After(c, data[0]);
      if d.p.errno != Ok then 0 else 1 + Consumed(d, data[1..])
  }

  /** Feeding is independent of how the input is cut. */
  lemma {:induction false} FeedConcat(c: Config, a: string, b: string)
    ensures Feed(c, a + b) == Feed(Feed(c, a), b)
    decreases |a|
  {
    hide Step;
    if a == [] {
      assert a + b == b;
    } else if !Stopped(c) {
      assert (a + b)[1..] == a[1..] + b;
      FeedConcat(After(c, a[0]), a[1..], b);
    }
  }

  /** A run that ends without error and inside HTTP consumed everything; any other run stopped
      at the first character that failed, or just behind the one that left. */
  lemma {:induction false} ConsumedExactly(c: Config, data: string)
    requires !Stopped(c)
    ensures !Stopped(Feed(c, data)) ==> Consumed(c, data) == |data|
    ensures Feed(c, data).p.errno != Ok ==>
              var n := Consumed(c, data);
              n < |data| && !Stopped(Feed(c, data[..n])) && Feed(c, data) == After(Feed(c, data[..n]), data[n])
    decreases |data|
  {
    hide Step;
    if data != [] {
      var d := After(c, data[0]);
      if Stopped(d) {
        assert Feed(d, data[1..]) == d;
        assert data[..0] == [];
      } else {
        ConsumedExactly(d, data[1..]);
        if Feed(c, data).p.errno != Ok {
          var n := Consumed(d, data[1..]);
          var prefix := data[..n + 1];
          assert prefix[0] == data[0] && prefix[1..] == data[1..][..n];
          assert Feed(c, prefix) == Feed(d, prefix[1..]);
        }
      }
    }
  }

  function Flatten(pieces: seq<string>): string {
    if pieces == [] then [] else pieces[0] + Flatten(pieces[1..])
  }

  function FeedAll(c: Config, pieces: seq<string>): Config
    decreases |pieces|
  {
    if pieces == [] then c else FeedAll(Feed(c, pieces[0]), pieces[1..])
  }

  lemma {:induction false} FeedAllFlatten(c: Config, pieces: seq<string>)
    ensures FeedAll(c, pieces) == Feed(c, Flatten(pieces))
    decreases |pieces|
  {
    hide Step;
    if pieces != [] {
      FeedAllFlatten(Feed(c, pieces[0]), pieces[1..]);
      FeedConcat(c, pieces[0], Flatten(pieces[1..]));
    }
  }
}
