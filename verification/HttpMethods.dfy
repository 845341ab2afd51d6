/** The request method: exactly which words the parser takes for which method. */
module HttpMethods {
  import opened Bytes
  import opened HttpTypes
  import opened HttpSwitch
  import opened HttpStep
  import opened HttpHeaders
  import opened HttpValues

  /** A word up to a blank, with whatever stands at the place where the parser may not look. */
  predicate IsWordOf(w: string) {
    (w != "" ==> w[0] != CR && w[0] != LF) && forall i :: 0 <= i < |w| && i != 2 ==> w[i] != ' '
  }

  /** Methods whose third character is not looked at; for PUT and UNLOCK one character leads elsewhere. */
  predicate Forgives(m: Method, c: char) {
    if c as int == 0 then false
    else if m.CONNECT? || m.COPY? || m.MKCOL? || m.MKACTIVITY? || m.SUBSCRIBE? || m.PURGE? || m.UNSUBSCRIBE? then false
    else if m.PUT? then c != 'R'
    else if m.UNLOCK? then c != 'S'
    else true
  }

  /** The first `k` characters of `w` are taken for those of `m`. */
  predicate Agrees(w: string, k: nat, m: Method) {
    && k <= |w| && k <= |MethodString(m)|
    && forall i :: 0 <= i < k ==> w[i] == MethodString(m)[i] || (i == 2 && Forgives(m, w[2]))
  }

  /** `w` is taken for the method `m`. */
  predicate Fits(w: string, m: Method) { |w| == |MethodString(m)| && Agrees(w, |w|, m) }

  /** The method the parser is betting on after `k` characters of `m`. */
  function Bet(m: Method, k: nat): Method {
    if k <= 1 && (m.CHECKOUT? || m.COPY?) then CONNECT
    else if k <= 2 && m.COPY? then CONNECT
    else if k <= 1 && (m.MOVE? || m.MERGE? || m.MSEARCH? || m.MKACTIVITY?) then MKCOL
    else if k <= 2 && m.MKACTIVITY? then MKCOL
    else if k <= 1 && m.SEARCH? then SUBSCRIBE
    else if k <= 1 && (m.PROPFIND? || m.PROPPATCH? || m.PUT? || m.PURGE? || m.PATCH?) then POST
    else if k <= 2 && m.PURGE? then PUT
    else if k <= 4 && m.PROPPATCH? then PROPFIND
    else if k <= 2 && m.UNSUBSCRIBE? then UNLOCK
    else m
  }

  lemma MethodStep(p: Parser, c: char)
    requires p.state.ReqMethod?
    ensures Switch(p, c) == SwitchMethod(p, c) && !SwitchMethod(p, c).next.Reexecute?
  {
    hide MethodString;
  }

  /** The methods at which the parser changes its bet, when, and on what. */
  predicate Turns(v: Method, k: nat, m: Method) {
    || (v.CONNECT? && ((k == 1 && m.CHECKOUT?) || (k == 2 && m.COPY?)))
    || (v.MKCOL? && ((k == 1 && (m.MOVE? || m.MERGE? || m.MSEARCH?)) || (k == 2 && m.MKACTIVITY?)))
    || (v.SUBSCRIBE? && k == 1 && m.SEARCH?)
    || (v.POST? && k == 1 && (m.PROPFIND? || m.PUT? || m.PATCH?))
    || (v.PUT? && k == 2 && m.PURGE?)
    || (v.UNLOCK? && k == 2 && m.UNSUBSCRIBE?)
    || (v.PROPFIND? && k == 4 && m.PROPPATCH?)
  }

  lemma TurnPrefix(v: Method, k: nat, m: Method)
    requires Turns(v, k, m)
    ensures 1 <= k < |MethodString(m)| && k < |MethodString(v)| && MethodString(v)[k] != MethodString(m)[k]
    ensures forall i :: 0 <= i < k ==> MethodString(v)[i] == MethodString(m)[i]
  {
  }

  /** What one character does: it matches, it is forgiven, it changes the bet, or it is an error. */
  lemma StepCases(p: Parser, c: char)
    requires p.state.ReqMethod? && 1 <= p.index && (c != ' ' || p.index < |MethodString(p.verb)|)
    ensures var a := SwitchMethod(p, c);
            var v, k := p.verb, p.index;
            var q := p.(index := k + 1, verb := a.p.verb);
            if c as int == 0 then a.next.Error? && !a.p.errno.Ok?
            else if k < |MethodString(v)| && c == MethodString(v)[k] then a.next.Break? && a.acts.Quiet?
              && a.p == p.(index := k + 1)
            else if a.next.Break? then
              a.acts.Quiet? && a.p == q
              && ((a.p.verb == v && k == 2 && (Bet(v, 2) == v ==> Forgives(v, c)))
                  || (Turns(v, k, a.p.verb) && c == MethodString(a.p.verb)[k]))
            else a.next.Error? && !a.p.errno.Ok?
  {
    hide MethodString;
    Turning();
  }

  lemma Turning()
    ensures MethodString(CHECKOUT)[1] == 'H' && MethodString(COPY)[2] == 'P'
    ensures MethodString(MOVE)[1] == 'O' && MethodString(MERGE)[1] == 'E' && MethodString(MSEARCH)[1] == '-'
    ensures MethodString(MKACTIVITY)[2] == 'A' && MethodString(SEARCH)[1] == 'E'
    ensures MethodString(PROPFIND)[1] == 'R' && MethodString(PUT)[1] == 'U' && MethodString(PATCH)[1] == 'A'
    ensures MethodString(PURGE)[2] == 'R' && MethodString(UNSUBSCRIBE)[2] == 'S' && MethodString(PROPPATCH)[4] == 'P'
  {
  }

  lemma TurnBet(v: Method, k: nat, m: Method, c: char)
    requires Turns(v, k, m)
    ensures Bet(m, k + 1) == m && Bet(m, k) == v && (k > 2 ==> (Forgives(v, c) <==> Forgives(m, c)))
  {
  }

  lemma BetStays(v: Method, k: nat)
    ensures Bet(v, k) == v ==> Bet(v, k + 1) == v
  {
  }

  /** One character on: the method betted on agrees with what was read. */
  lemma StepAgrees(p: Parser, w: string, k: nat)
    requires p.state.ReqMethod? && p.index == k && 1 <= k < |w| && IsWordOf(w)
    requires Agrees(w, k, p.verb) && Bet(p.verb, k) == p.verb
    ensures var a := SwitchMethod(p, w[k]);
            a.next.Break? ==> a.p == p.(index := k + 1, verb := a.p.verb) && a.acts.Quiet?
                              && Agrees(w, k + 1, a.p.verb) && Bet(a.p.verb, k + 1) == a.p.verb
  {
    hide MethodString, SwitchMethod, Bet, Forgives, Turns;
    var a := SwitchMethod(p, w[k]);
    MethodLengths(p.verb);
    StepCases(p, w[k]);
    BetStays(p.verb, k);
    if Turns(p.verb, k, a.p.verb) {
      TurnPrefix(p.verb, k, a.p.verb);
      TurnBet(p.verb, k, a.p.verb, if k > 2 then w[2] else 'x');
    }
  }

  lemma MethodLengths(m: Method)
    ensures 3 <= |MethodString(m)|
  {
  }

  lemma MethodChars(m: Method, i: nat)
    requires i < |MethodString(m)|
    ensures MethodString(m)[i] as int > 32
  {
  }

  // ---------- every word that fits is taken ----------

  lemma TurnTaken(p: Parser, c: char, m: Method)
    requires p.state.ReqMethod? && Turns(p.verb, p.index, m) && p.index < |MethodString(m)|
             && c == MethodString(m)[p.index]
    ensures SwitchMethod(p, c) == Stay(p.(index := p.index + 1, verb := m))
  {
    TurnPrefix(p.verb, p.index, m);
    MethodChars(m, p.index);
    hide MethodString;
    Turning();
  }

  lemma Forgiven(p: Parser, c: char)
    requires p.state.ReqMethod? && p.index == 2 && Forgives(p.verb, c)
    ensures SwitchMethod(p, c) == Stay(p.(index := 3))
  {
    hide MethodString;
    MethodLengths(p.verb);
  }

  lemma BetCases(m: Method, k: nat)
    requires 1 <= k < |MethodString(m)|
    ensures var v, next := Bet(m, k), Bet(m, k + 1);
            && k < |MethodString(next)| && MethodString(next)[k] == MethodString(m)[k]
            && (v == next || Turns(v, k, next))
            && (k == 2 && v != next ==> forall c :: !Forgives(m, c))
            && (k == 2 && v == next ==> forall c :: Forgives(m, c) ==> Forgives(v, c))
  {
  }

  lemma StepBet(p: Parser, w: string, k: nat, m: Method)
    requires p.state.ReqMethod? && p.index == k && 1 <= k < |w| && IsWordOf(w) && Fits(w, m) && p.verb == Bet(m, k)
    ensures SwitchMethod(p, w[k]) == Stay(p.(index := k + 1, verb := Bet(m, k + 1)))
  {
    hide MethodString, SwitchMethod, Bet, Forgives, Turns;
    BetCases(m, k);
    if w[k] == MethodString(m)[k] {
      if Bet(m, k) == Bet(m, k + 1) { Matching(p, w[k]); } else { TurnTaken(p, w[k], Bet(m, k + 1)); }
    } else {
      Forgiven(p, w[k]);
    }
  }

  lemma Matching(p: Parser, c: char)
    requires p.state.ReqMethod? && p.index < |MethodString(p.verb)| && c == MethodString(p.verb)[p.index]
    ensures SwitchMethod(p, c) == Stay(p.(index := p.index + 1))
  {
    hide MethodString;
    MethodChars(p.verb, p.index);
  }

  // ---------- whole words ----------

  /** In the middle of a method, `k` characters of `w` read. */
  predicate Midway(p: Parser, w: string, k: nat) {
    p.errno.Ok? && p.state.ReqMethod? && p.index == k && 1 <= k <= |w| && Agrees(w, k, p.verb)
      && Bet(p.verb, k) == p.verb
  }

  lemma MethodAfter(c: Config, ch: char)
    requires !c.left && Room(c.p, 1) && c.p.state.ReqMethod?
    ensures var a := SwitchMethod(Counted(c.p), ch);
            if a.next.Break? && a.acts.Quiet? then
              After(c, ch).p == a.p && !After(c, ch).left && (Live(a.p.state).NoPart? ==> After(c, ch).t == c.t)
            else if a.next.Error? then After(c, ch).p == a.p && !After(c, ch).left
            else true
  {
    hide SwitchMethod, MethodString;
    MethodStep(Counted(c.p), ch);
    DispatchOnce(Counted(c.p), ch);
  }

  /** The method is over and the url comes next. */
  predicate Taken(p: Parser) { p.errno.Ok? && p.state.ReqSpacesBeforeUrl? }

  /** The rest of a word and the blank behind it: taken exactly for the method it fits. */
  lemma {:induction false} RestOfMethod(c: Config, w: string, k: nat)
    requires k <= |w| && !c.left && Room(c.p, |w| - k + 1) && Midway(c.p, w, k) && IsWordOf(w)
    ensures var d := Feed(c, w[k..] + " ");
            && (Taken(d.p) ==> Fits(w, d.p.verb))
            && (forall m :: Fits(w, m) && Bet(m, k) == c.p.verb ==> Taken(d.p) && d.p.verb == m)
    decreases |w| - k
  {
    hide Step, SwitchMethod, Bet, Agrees, Fits, MethodString, Forgives;
    var text := w[k..] + " ";
    if k == |w| {
      assert text == " ";
      FeedOne(c, ' ');
      MethodAfter(c, ' ');
      BlankEnds(c.p, w);
    } else {
      assert text[0] == w[k] && text[1..] == w[k + 1..] + " ";
      MethodAfter(c, w[k]);
      StepAgrees(Counted(c.p), w, k);
      MethodLengths(c.p.verb);
      StepCases(Counted(c.p), w[k]);
      var d := After(c, w[k]);
      forall m | Fits(w, m) && Bet(m, k) == c.p.verb
        ensures d.p.errno.Ok? && d.p.verb == Bet(m, k + 1)
      {
        StepBet(Counted(c.p), w, k, m);
      }
      if d.p.errno.Ok? {
        RestOfMethod(d, w, k + 1);
      } else {
        assert Feed(d, text[1..]) == d;
      }
    }
  }

  /** A blank ends a method that is complete, and nothing else. */
  lemma BlankEnds(p: Parser, w: string)
    requires p.errno.Ok? && p.state.ReqMethod? && p.index == |w| && IsWordOf(w) && Midway(p, w, |w|)
    ensures var a := SwitchMethod(Counted(p), ' ');
            && ((a.next.Break? && a.acts.Quiet?) || (a.next.Error? && !a.p.errno.Ok?))
            && (Taken(a.p) <==> |w| == |MethodString(p.verb)|) && a.p.verb == p.verb
            && (|w| == |MethodString(p.verb)| ==> Fits(w, p.verb))
            && (forall m :: Fits(w, m) && Bet(m, |w|) == p.verb ==> m == p.verb && Taken(a.p))
  {
    forall m | Fits(w, m) && Bet(m, |w|) == p.verb ensures m == p.verb { WholeBet(m); }
    hide MethodString;
  }

  lemma WholeBet(m: Method)
    ensures Bet(m, |MethodString(m)|) == m
  {
  }

  lemma FirstLetter(c: Config, ch: char)
    requires !c.left && Room(c.p, 1) && c.p.state.StartReq? && ch != CR && ch != LF
    ensures var d := After(c, ch);
            !d.left && if IsMethodInitial(ch) then d.p
              == Cleared(c.p).(nread := c.p.nread + 1, verb := FirstMethod(ch), index := 1, state := ReqMethod)
                       else !d.p.errno.Ok?
  {
    hide SwitchMethod, MethodString;
    var p := Counted(c.p);
    assert Switch(p, ch) == SwitchStart(p, ch);
    DispatchOnce(p, ch);
  }

  lemma FirstBet(ch: char)
    requires IsMethodInitial(ch)
    ensures MethodString(FirstMethod(ch))[0] == ch && Bet(FirstMethod(ch), 1) == FirstMethod(ch)
  {
  }

  lemma BetOfFirst(m: Method)
    ensures IsMethodInitial(MethodString(m)[0]) && Bet(m, 1) == FirstMethod(MethodString(m)[0])
  {
  }

  /** Exactly which words are taken for a method, and for which: those that agree with it in every character
      but, where the parser does not look, the third. */
  lemma MethodsAreTakenExactly(c: Config, w: string, m: Method)
    requires !c.left && Room(c.p, |w| + 1) && c.p.state.StartReq? && w != "" && IsWordOf(w)
    ensures var d := Feed(c, w + " "); Taken(d.p) && d.p.verb == m <==> Fits(w, m)
  {
    hide Step, SwitchMethod, Bet, MethodString, Forgives, Cleared;
    var text := w + " ";
    assert text[0] == w[0] && text[1..] == w[1..] + " ";
    FirstLetter(c, w[0]);
    var d := After(c, w[0]);
    MethodLengths(m);
    if Fits(w, m) { BetOfFirst(m); }
    if IsMethodInitial(w[0]) {
      FirstBet(w[0]);
      ClearedKeeps(c.p);
      MethodLengths(d.p.verb);
      RestOfMethod(d, w, 1);
    } else {
      assert Feed(d, text[1..]) == d;
    }
  }

  lemma ClearedKeeps(p: Parser)
    ensures Cleared(p).errno == p.errno && Cleared(p).nread == p.nread
  {
  }

  /** What is left of a word that fits, with the blank behind it: only the struct moves on. */
  lemma {:induction false} RestRead(c: Config, w: string, k: nat, m: Method)
    requires 1 <= k <= |w| && !c.left && Room(c.p, |w| - k + 1) && IsWordOf(w) && Fits(w, m)
    requires c.p.state.ReqMethod? && c.p.index == k && c.p.verb == Bet(m, k)
    ensures Feed(c, w[k..] + " ")
         == c.(p := c.p.(nread := c.p.nread + |w| - k + 1, index := |w| + 1, verb := m, state := ReqSpacesBeforeUrl))
    decreases |w| - k
  {
    hide Step, SwitchMethod, Bet, MethodString, Forgives, Agrees, Absorb;
    var text := w[k..] + " ";
    if k == |w| {
      assert text == " ";
      WholeBet(m);
      FeedOne(c, ' ');
      MethodAfter(c, ' ');
      MethodEnds(Counted(c.p));
    } else {
      hide Fits, IsWordOf;
      assert text[0] == w[k] && text[1..] == w[k + 1..] + " ";
      BetOn(c, w, k, m);
      RestRead(After(c, w[k]), w, k + 1, m);
      FeedRest(c, text);
    }
  }

  lemma BetOn(c: Config, w: string, k: nat, m: Method)
    requires 1 <= k < |w| && !c.left && Room(c.p, 1) && IsWordOf(w) && Fits(w, m)
    requires c.p.state.ReqMethod? && c.p.index == k && c.p.verb == Bet(m, k)
    ensures After(c, w[k]) == c.(p := c.p.(nread := c.p.nread + 1, index := k + 1, verb := Bet(m, k + 1)))
  {
    hide Step, SwitchMethod, Bet, MethodString, Forgives, Agrees, Absorb;
    StepBet(Counted(c.p), w, k, m);
    MethodAfter(c, w[k]);
  }

  lemma MethodEnds(p: Parser)
    requires p.state.ReqMethod? && p.index == |MethodString(p.verb)|
    ensures SwitchMethod(p, ' ') == Goto(p.(index := p.index + 1), ReqSpacesBeforeUrl)
  {
    hide MethodString;
  }

  /** A word that fits, at the beginning of a request. */
  lemma MethodRead(c: Config, w: string, m: Method)
    requires !c.left && Room(c.p, |w| + 1) && c.p.state.StartReq? && IsWordOf(w) && Fits(w, m)
    ensures Feed(c, w + " ")
         == Config(Cleared(c.p).(nread := c.p.nread + |w| + 1, index := |w| + 1, verb := m,
                                 state := ReqSpacesBeforeUrl),
                   Push(c.t, MessageBegin), false)
  {
    hide Step, SwitchMethod, Bet, MethodString, Forgives, Cleared, Push;
    MethodLengths(m);
    var text := w + " ";
    assert text[0] == w[0] && text[1..] == w[1..] + " ";
    FirstLetter(c, w[0]);
    BetOfFirst(m);
    ClearedKeeps(c.p);
    FirstCall(c, w[0]);
    RestRead(After(c, w[0]), w, 1, m);
  }

  lemma FirstCall(c: Config, ch: char)
    requires !c.left && Room(c.p, 1) && c.p.state.StartReq? && IsMethodInitial(ch)
    ensures After(c, ch).t == Push(c.t, MessageBegin)
  {
    hide SwitchMethod, MethodString, Push;
    var p := Counted(c.p);
    assert Switch(p, ch) == SwitchStart(p, ch);
    DispatchOnce(p, ch);
    Absorb1(c.t, MessageBegin);
  }

  /** A word that is no method and is taken for one. */
  lemma UnknownMethodIsTaken(c: Config)
    requires !c.left && Room(c.p, 4) && c.p.state.StartReq?
    ensures var d := Feed(c, "GEX "); Taken(d.p) && d.p.verb == GET
    ensures forall m: Method :: MethodString(m) != "GEX"
  {
    hide Feed;
    assert Fits("GEX", GET) by { assert MethodString(GET) == "GET"; }
    assert "GEX" + " " == "GEX ";
    MethodsAreTakenExactly(c, "GEX", GET);
  }
}
