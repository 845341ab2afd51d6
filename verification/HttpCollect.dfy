/** What the proxy keeps of the parser's calls: the url, at most sixteen clipped headers, the status and the body. */
module HttpCollect {
  import opened Bytes
  import opened HttpTypes
  import opened HttpStep
  import opened HttpMessage
  import opened HttpResponse
  import opened MemoryStream

  const HEADERS: nat := 16
  const FIELD_SIZE: nat := 0x100
  const VALUE_SIZE: nat := 0x200

  datatype Header = Header(field: string, value: string)

  /** The first characters, as many as a buffer of `size` holds in front of its zero. */
  function Clip(s: string, size: nat): (r: string)
    requires size > 0
    ensures |r| < size
  {
    if |s| < size then s else s[..size - 1]
  }

  /** `head`, `tail` and `it` are places among the headers; `content` is the stream the body goes to. */
  datatype Collected = Collected(
    headers: seq<Header>, head: nat, tail: nat, it: nat,
    url: string, statusCode: int, headersComplete: bool, messageComplete: bool, content: Flat)

  predicate Sound(c: Collected) {
    && |c.headers| == HEADERS && c.head <= c.tail <= HEADERS && c.it <= c.tail
    && forall i :: 0 <= i < HEADERS ==> |c.headers[i].field| < FIELD_SIZE && |c.headers[i].value| < VALUE_SIZE
  }

  function BlankHeaders(): seq<Header> { seq(HEADERS, _ => Header("", "")) }

  /** After Reset, with a stream to write to. */
  function Fresh(content: Flat): Collected {
    Collected(BlankHeaders(), 0, HEADERS, 0, "", -1, false, false, content)
  }

  /** One callback. */
  function Called(c: Collected, e: Event): (r: Collected)
    requires Sound(c)
  {
    match e
    case MessageBegin => c.(it := 0)
    case StatusComplete => c
    case HeadersComplete(status) => c.(head := 0, tail := c.it, headersComplete := true, statusCode := status)
    case MessageComplete => c.(messageComplete := true)
    case Data(Url, s) => c.(url := c.url + s)
    case Data(Body, s) => c.(content := c.content.Write(s).0)
    case Data(Field, s) =>
      var d := c.(head := c.it);
      if d.head == d.tail then d
      else
        var h := d.headers[d.head];
        d.(headers := d.headers[d.head := h.(field := Clip(h.field + s, FIELD_SIZE))])
    case Data(Value, s) =>
      if c.head == c.tail then c
      else
        var h := c.headers[c.head];
        c.(it := if c.head == c.it then c.it + 1 else c.it,
           headers := c.headers[c.head := h.(value := Clip(h.value + s, VALUE_SIZE))])
  }

  // ---------- fragments ----------

  lemma CalledSound(c: Collected, e: Event)
    requires Sound(c)
    ensures Sound(Called(c, e))
  {
    hide Clip;
  }

  lemma ClipClip(s: string, a: string, b: string, size: nat)
    requires size > 0
    ensures Clip(Clip(s + a, size) + b, size) == Clip(s + (a + b), size)
  {
    assert s + (a + b) == s + a + b;
    var t := s + a;
    if |t| >= size {
      assert (t[..size - 1] + b)[..size - 1] == t[..size - 1] == (t + b)[..size - 1];
    }
  }

  lemma WriteWrite(f: Flat, a: string, b: string)
    ensures f.Write(a).0.Write(b).0 == f.Write(a + b).0
  {
    assert f.bytes + (a + b) == f.bytes + a + b;
    if a == "" { assert a + b == b; }
    if b == "" { assert a + b == a; }
  }

  /** Two fragments of one part leave what the whole would have left. */
  lemma CalledTwice(c: Collected, part: Fragment, a: string, b: string)
    requires Sound(c)
    ensures Sound(Called(c, Data(part, a)))
    ensures Called(Called(c, Data(part, a)), Data(part, b)) == Called(c, Data(part, a + b))
  {
    CalledSound(c, Data(part, a));
    hide Clip;
    match part
    case Url => assert c.url + (a + b) == c.url + a + b;
    case Body => WriteWrite(c.content, a, b);
    case Field => if c.it != c.tail { ClipClip(c.headers[c.it].field, a, b, FIELD_SIZE); }
    case Value => if c.head != c.tail { ClipClip(c.headers[c.head].value, a, b, VALUE_SIZE); }
  }

  function Apply(c: Collected, es: seq<Event>): (r: Collected)
    requires Sound(c)
    ensures Sound(r)
    decreases |es|
  {
    if es == [] then c
    else
      CalledSound(c, es[0]);
      Apply(Called(c, es[0]), es[1..])
  }

  lemma {:induction false} ApplyConcat(c: Collected, a: seq<Event>, b: seq<Event>)
    requires Sound(c)
    ensures Apply(c, a + b) == Apply(Apply(c, a), b)
    decreases |a|
  {
    hide Called, Sound;
    if a == [] {
      assert a + b == b;
    } else {
      CalledSound(c, a[0]);
      assert (a + b)[1..] == a[1..] + b;
      ApplyConcat(Called(c, a[0]), a[1..], b);
    }
  }

  lemma ApplyOne(c: Collected, e: Event)
    requires Sound(c)
    ensures Apply(c, [e]) == Called(c, e)
  {
    hide Called, Sound;
    assert [e][1..] == [];
    CalledSound(c, e);
  }

  lemma ApplyPush(c: Collected, t: seq<Event>, e: Event)
    requires Sound(c)
    ensures Apply(c, Push(t, e)) == Called(Apply(c, t), e)
  {
    hide Called, Sound, Apply;
    if e.Data? && EndsWith(t, e.part) {
      var front, last := t[..|t| - 1], t[|t| - 1];
      assert t == front + [last];
      var d := Apply(c, front);
      var long := Data(e.part, last.text + e.text);
      ApplyConcat(c, front, [last]);
      ApplyConcat(c, front, [long]);
      ApplyOne(d, last);
      ApplyOne(d, long);
      CalledTwice(d, e.part, last.text, e.text);
    } else {
      ApplyConcat(c, t, [e]);
      ApplyOne(Apply(c, t), e);
    }
  }

  /** It does not matter how the parser cut the parts into fragments. */
  lemma {:induction false} FragmentsDoNotMatter(c: Collected, t: seq<Event>, es: seq<Event>)
    requires Sound(c)
    ensures Apply(c, Absorb(t, es)) == Apply(Apply(c, t), es)
    decreases |es|
  {
    hide Called, Sound, Push;
    if es != [] {
      ApplyPush(c, t, es[0]);
      CalledSound(Apply(c, t), es[0]);
      FragmentsDoNotMatter(c, Push(t, es[0]), es[1..]);
    }
  }

  // ---------- headers ----------

  function Clipped(e: Entry): Header { Header(Clip(e.name, FIELD_SIZE), Clip(e.Whole(), VALUE_SIZE)) }

  /** The collector while it takes in the first `n` of `hs`, from its cleared state on. */
  ghost predicate Holds(c: Collected, hs: seq<Entry>, n: nat) {
    && Sound(c) && n <= |hs| && c.tail == HEADERS && c.it == (if n < HEADERS then n else HEADERS)
    && (forall i :: 0 <= i < c.it ==> c.headers[i] == Clipped(hs[i]))
    && (forall i :: c.it <= i < HEADERS ==> c.headers[i] == Header("", ""))
  }

  predicate SameOutside(c: Collected, d: Collected) {
    c.content == d.content && c.messageComplete == d.messageComplete && c.url == d.url
  }

  /** One header line: a name and then a value. */
  lemma EntryHeld(c: Collected, hs: seq<Entry>, n: nat)
    requires Holds(c, hs, n) && n < |hs|
    ensures var d := Called(c, Data(Field, hs[n].name));
            Sound(d) && Holds(Called(d, Data(Value, hs[n].Whole())), hs, n + 1)
            && SameOutside(c, Called(d, Data(Value, hs[n].Whole())))
  {
    hide Clip;
    CalledSound(c, Data(Field, hs[n].name));
    var d := Called(c, Data(Field, hs[n].name));
    CalledSound(d, Data(Value, hs[n].Whole()));
    assert "" + hs[n].name == hs[n].name && "" + hs[n].Whole() == hs[n].Whole();
  }

  lemma {:induction false} HeadersHeld(c: Collected, t: seq<Event>, hs: seq<Entry>, n: nat)
    requires Sound(c) && Holds(Apply(c, t), hs, n)
    ensures var d := Apply(c, HeaderCalls(t, hs[n..]));
            Holds(d, hs, |hs|) && SameOutside(Apply(c, t), d)
    decreases |hs| - n
  {
    hide Called, Sound, Push, Holds, Apply;
    HoldsRange(Apply(c, t), hs, n);
    if n == |hs| {
      assert hs[n..] == [];
    } else {
      var f, v := Data(Field, hs[n].name), Data(Value, hs[n].Whole());
      EntryHeld(Apply(c, t), hs, n);
      ApplyPush(c, t, f);
      ApplyPush(c, Push(t, f), v);
      assert hs[n..][0] == hs[n] && hs[n..][1..] == hs[n + 1..];
      HeadersHeld(c, Push(Push(t, f), v), hs, n + 1);
    }
  }

  lemma HoldsRange(c: Collected, hs: seq<Entry>, n: nat)
    requires Holds(c, hs, n)
    ensures n <= |hs|
  {
  }

  // ---------- looking a header up ----------

  /** The place of the first header from `i` on whose name is `name` but for case. */
  function Find(headers: seq<Header>, name: string, i: nat, tail: nat): (k: nat)
    requires i <= tail <= |headers|
    ensures i <= k <= tail
    ensures k < tail ==> LowerAll(headers[k].field) == LowerAll(name)
    ensures forall j :: i <= j < k ==> LowerAll(headers[j].field) != LowerAll(name)
    decreases tail - i
  {
    if i == tail || LowerAll(headers[i].field) == LowerAll(name) then i else Find(headers, name, i + 1, tail)
  }

  datatype Lookup = Missing | Found(value: string)

  function GetHeader(c: Collected, name: string): Lookup
    requires Sound(c)
  {
    var k := Find(c.headers, name, c.head, c.tail);
    if k < c.tail then Found(c.headers[k].value) else Missing
  }

  /** The first of the first sixteen lines whose clipped name matches, and its clipped value. */
  function FirstMatch(hs: seq<Entry>, name: string, i: nat): Lookup
    requires i <= |hs|
    decreases |hs| - i
  {
    if i == |hs| || i >= HEADERS then Missing
    else if LowerAll(Clip(hs[i].name, FIELD_SIZE)) == LowerAll(name) then Found(Clip(hs[i].Whole(), VALUE_SIZE))
    else FirstMatch(hs, name, i + 1)
  }

  lemma {:induction false} FindIsFirst(c: Collected, hs: seq<Entry>, name: string, i: nat)
    requires Holds(c, hs, |hs|) && i <= c.it
    ensures var k := Find(c.headers, name, i, c.it);
            FirstMatch(hs, name, i) == if k < c.it then Found(c.headers[k].value) else Missing
    decreases c.it - i
  {
    hide LowerAll, Clip;
    if i < c.it { FindIsFirst(c, hs, name, i + 1); }
  }

  /** What can be looked up when the headers are complete, in whatever pieces they came. */
  lemma HeadersCollected(content: Flat, h: Head, name: string)
    ensures Sound(Fresh(content))
    ensures var d := Apply(Fresh(content), HeadCalls(h));
            && d.headersComplete && d.statusCode == CodeOf(h) && !d.messageComplete && d.content == content
            && GetHeader(d, name) == FirstMatch(h.headers, name, 0)
  {
    hide Called, Find, FirstMatch, LowerAll, Holds, Clip;
    var c, t := Fresh(content), StatusCalls([], h.end);
    var hs := h.headers;
    BeginHeld(content, hs, h.end);
    assert hs[0..] == hs;
    HeadersHeld(c, t, hs, 0);
    var d := Apply(c, HeaderCalls(t, hs));
    ApplyPush(c, HeaderCalls(t, hs), HeadersComplete(CodeOf(h)));
    CompleteIsFirst(d, hs, name, CodeOf(h));
  }

  lemma BeginHeld(content: Flat, hs: seq<Entry>, end: string)
    ensures Sound(Fresh(content))
    ensures var d := Apply(Fresh(content), StatusCalls([], end));
            Holds(d, hs, 0) && SameOutside(Fresh(content), d)
  {
    hide Clip;
    var c := Fresh(content);
    ApplyConcat(c, [MessageBegin], [StatusComplete]);
    ApplyOne(c, MessageBegin);
    ApplyOne(Called(c, MessageBegin), StatusComplete);
    assert [MessageBegin] + [StatusComplete] == [MessageBegin, StatusComplete];
  }

  lemma CompleteIsFirst(c: Collected, hs: seq<Entry>, name: string, status: nat)
    requires Holds(c, hs, |hs|)
    ensures var d := Called(c, HeadersComplete(status));
            && Sound(d) && d.headersComplete && d.statusCode == status && SameOutside(c, d)
            && GetHeader(d, name) == FirstMatch(hs, name, 0)
  {
    hide Find, FirstMatch, LowerAll, Clip;
    CalledSound(c, HeadersComplete(status));
    FindIsFirst(c, hs, name, 0);
  }

  /** A trailer is not collected; with its first field the headers can no longer be looked up either. */
  lemma TrailerHidesHeaders(c: Collected, s: string, name: string)
    requires Sound(c) && c.it == c.tail
    ensures var d := Called(c, Data(Field, s));
            Sound(d) && d.headers == c.headers && GetHeader(d, name) == Missing
            && Called(d, Data(Value, s)) == d
  {
    hide Clip, LowerAll;
  }

  /** From bytes to the lookup: a response head, fed to the parser in any pieces, and the calls the parser made,
      in any fragments. */
  lemma ResponseCollected(h: Head, pieces: seq<string>, es: seq<Event>, content: Flat, name: string)
    requires HeadOk(h) && !Seen(h).flags.upgrade
    requires Flatten(pieces) == HeadText(h) && Merged(es) == FeedAll(START, pieces).t
    ensures Sound(Fresh(content))
    ensures var d := Apply(Fresh(content), es);
            && d.headersComplete && d.statusCode == CodeOf(h) && d.content == content
            && (d.messageComplete <==> FramedCalls(Seen(h)) == [MessageComplete])
            && GetHeader(d, name) == FirstMatch(h.headers, name, 0)
  {
    hide Called, Find, FirstMatch, LowerAll, Holds, Clip, Feed, FeedAll, Seen, HeadOk, HeadText, HeadCalls, Push,
      FramedCalls;
    FeedAllFlatten(START, pieces);
    HeadRead(h);
    var calls := FramedCalls(Seen(h));
    OneCall(Seen(h));
    BeginHeld(content, [], CRLF);
    FragmentsDoNotMatter(Fresh(content), [], es);
    HeadersCollected(content, h, name);
    FragmentsDoNotMatter(Fresh(content), HeadCalls(h), calls);
    CompleteKeeps(Apply(Fresh(content), HeadCalls(h)), name);
  }

  lemma OneCall(q: Parser)
    ensures FramedCalls(q) == [] || FramedCalls(q) == [MessageComplete]
  {
  }

  lemma CompleteKeeps(c: Collected, name: string)
    requires Sound(c)
    ensures Sound(Apply(c, [MessageComplete])) && Apply(c, []) == c
    ensures var d := Apply(c, [MessageComplete]);
            d == c.(messageComplete := true) && GetHeader(d, name) == GetHeader(c, name)
  {
    ApplyOne(c, MessageComplete);
  }

  /** A whole response without trailer: its body is written to the stream as one. */
  lemma BodyCollected(h: Head, body: string, es: seq<Event>, content: Flat, name: string)
    requires Merged(es) == Push(BodyCalls(h, body), MessageComplete)
    ensures Sound(Fresh(content))
    ensures var d := Apply(Fresh(content), es);
            && d.headersComplete && d.messageComplete && d.statusCode == CodeOf(h)
            && d.content == (if body == "" then content else content.Write(body).0)
            && GetHeader(d, name) == FirstMatch(h.headers, name, 0)
  {
    hide Find, FirstMatch, LowerAll, Holds, Clip, HeadCalls, Push;
    var c := Fresh(content);
    BeginHeld(content, [], CRLF);
    FragmentsDoNotMatter(c, [], es);
    HeadersCollected(content, h, name);
    ApplyPush(c, BodyCalls(h, body), MessageComplete);
    if body != "" { ApplyPush(c, HeadCalls(h), Data(Body, body)); }
  }
}
