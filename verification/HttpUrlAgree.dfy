/** The url in a request: what the message parser lets through is what the url parser can take apart. */
module HttpUrlAgree {
  import opened Bytes
  import opened HttpTypes
  import opened HttpSwitch
  import opened HttpStep
  import opened HttpHeaders
  import opened HttpUrl

  predicate NoBlanks(u: string) { forall i :: 0 <= i < |u| ==> u[i] != ' ' && u[i] != CR && u[i] != LF }

  predicate AtUrl(p: Parser) { (p.state.ReqSpacesBeforeUrl? && !p.verb.CONNECT?) || IsUrlState(p.state) }

  lemma UrlSwitch(p: Parser, c: char)
    requires AtUrl(p) && c != ' ' && c != CR && c != LF
    ensures var s := UrlChar(p.state, c);
            Switch(p, c) == if s.Dead? then Fail(p.(state := Dead), InvalidUrl)
                            else Arm(p.(state := s), if p.state.ReqSpacesBeforeUrl? then Marked(Url) else Quiet, Break)
  {
    hide UrlChar;
    assert Switch(p, c) == SwitchUrl(p, c);
  }

  /** One character of a url. */
  lemma UrlOne(c: Config, ch: char)
    requires !c.left && Room(c.p, 1) && AtUrl(c.p) && ch != ' ' && ch != CR && ch != LF
    ensures var s := UrlChar(c.p.state, ch);
            if s.Dead? then After(c, ch).p.errno.InvalidUrl?
            else After(c, ch) == Config(c.p.(nread := c.p.nread + 1, state := s), Push(c.t, Data(Url, [ch])), false)
  {
    hide UrlChar, Switch, Push;
    var p := Counted(c.p);
    UrlSwitch(p, ch);
    var s := UrlChar(p.state, ch);
    UrlForward(p.state, ch);
    DispatchOnce(p, ch);
    if !s.Dead? {
      assert Live(s) == Of(Url);
      if p.state.ReqSpacesBeforeUrl? {
        AbsorbConcat(c.t, [Data(Url, "")], [Data(Url, [ch])]);
        Absorb1(c.t, Data(Url, ""));
        Absorb1(Push(c.t, Data(Url, "")), Data(Url, [ch]));
        PushPush(c.t, Url, "", [ch]);
        assert "" + [ch] == [ch];
      } else {
        assert [] + [Data(Url, [ch])] == [Data(Url, [ch])];
        Absorb1(c.t, Data(Url, [ch]));
      }
    }
  }

  lemma {:induction false} ScanShift(s: State, u: string, k: nat)
    requires u != "" && 0 < k <= |u|
    ensures StateAfter(s, u, k) == StateAfter(UrlChar(s, u[0]), u[1..], k - 1)
    decreases k
  {
    hide UrlChar;
    if k > 1 { ScanShift(s, u, k - 1); }
  }

  /** The parser gets through a url without blanks exactly if the scan does, and then it has handed over that url. */
  lemma {:induction false} UrlAgrees(c: Config, u: string)
    requires !c.left && Room(c.p, |u|) && AtUrl(c.p) && u != "" && NoBlanks(u)
    ensures var s := StateAfter(c.p.state, u, |u|);
            if s.Dead? then !Feed(c, u).p.errno.Ok?
            else Feed(c, u) == Config(c.p.(nread := c.p.nread + |u|, state := s), Push(c.t, Data(Url, u)), false)
    decreases |u|
  {
    hide Step, UrlChar, Push, StateAfter;
    UrlOne(c, u[0]);
    var d := After(c, u[0]);
    var s1 := UrlChar(c.p.state, u[0]);
    ScanShift(c.p.state, u, |u|);
    StartOf(s1, u[1..]);
    UrlForward(c.p.state, u[0]);
    if s1.Dead? {
      ScanForward(Dead, u[1..], 0, |u| - 1);
      assert Feed(d, u[1..]) == d;
    } else if |u| == 1 {
      assert u == [u[0]];
      assert Feed(d, u[1..]) == d;
    } else {
      UrlAgrees(d, u[1..]);
      PushPush(c.t, Url, [u[0]], u[1..]);
      assert [u[0]] + u[1..] == u;
    }
  }

  lemma StartOf(s: State, u: string)
    ensures StateAfter(s, u, 0) == s
  {
  }

  /** So no url of a request that the message parser accepts drives the url parser to its dead state. */
  lemma AcceptedUrlScans(c: Config, u: string, blank: char)
    requires !c.left && Room(c.p, |u| + 1) && c.p.state.ReqSpacesBeforeUrl? && !c.p.verb.CONNECT? && u != ""
             && NoBlanks(u)
    requires Feed(c, u + [blank]).p.errno.Ok?
    ensures !StateAfter(ReqSpacesBeforeUrl, u, |u|).Dead?
    ensures Feed(c, u).t == Push(c.t, Data(Url, u))
  {
    hide Step, UrlChar, Push, StateAfter;
    UrlAgrees(c, u);
    FeedConcat(c, u, [blank]);
  }
}
