/** Taking a url apart: the scan by states, and which characters belong to which field. */
module HttpUrl {
  import opened Bytes
  import opened HttpTypes
  import opened HttpSwitch
  import opened HttpHead

  datatype UrlField = Schema | Host | Port | Path | Query | Fragment_ | UserInfo

  datatype Label = Delimiter | Part(f: UrlField)

  datatype Range = Range(off: nat, len: nat)

  // ---------- the scan ----------

  /** The state after the first `k` characters. */
  function StateAfter(start: State, u: string, k: nat): State
    requires k <= |u|
  {
    if k == 0 then start else UrlChar(StateAfter(start, u, k - 1), u[k - 1])
  }

  function Start(isConnect: bool): State { if isConnect then ReqServerStart else ReqSpacesBeforeUrl }

  /** The field a character belongs to, by the state it leads to. */
  function LabelOf(s: State): Label {
    if s.ReqSchema? then Part(Schema)
    else if s.ReqServer? then Part(Host)
    else if s.ReqServerWithAt? then Part(Host)
    else if s.ReqPath? then Part(Path)
    else if s.ReqQuery? then Part(Query)
    else if s.ReqFragment? then Part(Fragment_)
    else Delimiter
  }

  /** How far a url has got; fields have levels of their own. */
  function Level(s: State): nat {
    if s.ReqSpacesBeforeUrl? then 0
    else if s.ReqSchema? then 1
    else if s.ReqSchemaSlash? then 2
    else if s.ReqSchemaSlashSlash? then 3
    else if s.ReqServerStart? then 4
    else if s.ReqServer? then 5
    else if s.ReqServerWithAt? then 5
    else if s.ReqPath? then 6
    else if s.ReqQueryStart? then 7
    else if s.ReqQuery? then 8
    else if s.ReqFragmentStart? then 9
    else if s.ReqFragment? then 10
    else 11
  }

  predicate Scanning(s: State) { s.ReqSpacesBeforeUrl? || s.ReqServerStart? || IsUrlState(s) || s.Dead? }

  /** A url only goes forward. */
  lemma UrlForward(s: State, c: char)
    requires Scanning(s)
    ensures Level(s) <= Level(UrlChar(s, c)) && Scanning(UrlChar(s, c)) && !UrlChar(s, c).ReqSpacesBeforeUrl?
    ensures s.Dead? ==> UrlChar(s, c).Dead?
  {
    hide IsUserinfo, IsUrlChar, IsAlpha;
  }

  lemma {:induction false} ScanForward(start: State, u: string, j: nat, k: nat)
    requires j <= k <= |u| && Scanning(start)
    ensures Scanning(StateAfter(start, u, j)) && Scanning(StateAfter(start, u, k))
    ensures Level(StateAfter(start, u, j)) <= Level(StateAfter(start, u, k))
    ensures StateAfter(start, u, j).Dead? ==> StateAfter(start, u, k).Dead?
    decreases k
  {
    hide UrlChar, Level;
    if j < k {
      ScanForward(start, u, j, k - 1);
      UrlForward(StateAfter(start, u, k - 1), u[k - 1]);
    } else if k > 0 {
      ScanForward(start, u, k - 1, k - 1);
      UrlForward(StateAfter(start, u, k - 1), u[k - 1]);
    }
  }

  // ---------- ranges ----------

  /** `fields` says of `f` exactly which characters are labelled with it: a range, or none. */
  ghost predicate Exactly(fields: map<UrlField, Range>, labels: seq<Label>, f: UrlField) {
    if f in fields then
      && 0 < fields[f].len && fields[f].off + fields[f].len <= |labels|
      && forall i :: 0 <= i < |labels| ==>
         (labels[i] == Part(f) <==> fields[f].off <= i < fields[f].off + fields[f].len)
    else forall i :: 0 <= i < |labels| ==> labels[i] != Part(f)
  }

  ghost predicate AllExactly(fields: map<UrlField, Range>, labels: seq<Label>) {
    forall f :: Exactly(fields, labels, f)
  }

  /** No field is taken up again once it was left. */
  predicate Unbroken(labels: seq<Label>) {
    forall i, j, k :: 0 <= i < j < k < |labels| && labels[i].Part? && labels[i] == labels[k] ==> labels[j] == labels[i]
  }

  /** A character at `i` with label `l` after one whose field was `last`: the field is lengthened or begun. */
  function Put(fields: map<UrlField, Range>, last: Label, l: Label, i: nat): map<UrlField, Range> {
    if l.Delimiter? then fields
    else if l == last && l.f in fields then fields[l.f := Range(fields[l.f].off, fields[l.f].len + 1)]
    else fields[l.f := Range(i, 1)]
  }

  function Last(last: Label, l: Label): Label { if l.Delimiter? then last else l }

  function End(r: Range): nat { r.off + r.len }

  ghost predicate RangesInv(fields: map<UrlField, Range>, labels: seq<Label>, last: Label) {
    && AllExactly(fields, labels)
    && (last.Delimiter? ==> fields == map[])
    && (last.Part? ==> last.f in fields && forall f :: f in fields ==> End(fields[f]) <= End(fields[last.f]))
  }

  /** The last character of a field carries its label. */
  lemma EndLabel(fields: map<UrlField, Range>, labels: seq<Label>, f: UrlField)
    requires Exactly(fields, labels, f) && f in fields
    ensures labels[End(fields[f]) - 1] == Part(f) && End(fields[f]) <= |labels|
  {
  }

  lemma PutPlace(fields: map<UrlField, Range>, labels: seq<Label>, last: Label, l: Label)
    requires RangesInv(fields, labels, last) && Unbroken(labels + [l]) && l.Part?
    ensures if l == last then l.f in fields && End(fields[l.f]) == |labels| else l.f !in fields
  {
    var all := labels + [l];
    assert all[|labels|] == l;
    if l == last {
      EndLabel(fields, labels, l.f);
      var e := End(fields[l.f]);
      assert all[e - 1] == l;
      var j := if e < |labels| then e else e - 1;
      assert all[j] == labels[j];
    } else if last.Part? {
      EndLabel(fields, labels, last.f);
      var g := End(fields[last.f]);
      assert all[g - 1] == last;
      forall i | 0 <= i < |labels| ensures labels[i] == l ==> g <= i {
        assert all[i] == labels[i];
      }
      assert Exactly(fields, labels, l.f);
      if l.f in fields { EndLabel(fields, labels, l.f); }
    }
  }

  lemma PutKeeps(fields: map<UrlField, Range>, labels: seq<Label>, last: Label, l: Label)
    requires RangesInv(fields, labels, last) && Unbroken(labels + [l])
    ensures RangesInv(Put(fields, last, l, |labels|), labels + [l], Last(last, l))
  {
    if l.Part? { PutPlace(fields, labels, last, l); }
    var q, all := Put(fields, last, l, |labels|), labels + [l];
    forall f ensures Exactly(q, all, f) {
      assert Exactly(fields, labels, f);
    }
    forall f | f in q && l.Part? ensures End(q[f]) <= End(q[l.f]) {
      assert Exactly(fields, labels, f);
    }
  }

  // ---------- the labels of a url ----------

  function Labels(start: State, u: string): (s: seq<Label>)
    ensures |s| == |u|
  {
    seq(|u|, i requires 0 <= i < |u| => LabelOf(StateAfter(start, u, i + 1)))
  }

  function FieldLevel(f: UrlField): nat {
    match f case Schema => 1 case Host => 5 case Path => 6 case Query => 8 case Fragment_ => 10 case _ => 12
  }

  lemma LabelLevel(s: State, f: UrlField)
    requires Scanning(s)
    ensures LabelOf(s) == Part(f) <==> Level(s) == FieldLevel(f)
  {
  }

  lemma LabelsUnbroken(start: State, u: string)
    requires Scanning(start)
    ensures Unbroken(Labels(start, u))
  {
    hide Scanning, Level, LabelOf, FieldLevel, StateAfter;
    var labels := Labels(start, u);
    forall i, j, k | 0 <= i < j < k < |labels| && labels[i].Part? && labels[i] == labels[k]
      ensures labels[j] == labels[i]
    {
      ScanForward(start, u, i + 1, j + 1);
      ScanForward(start, u, j + 1, k + 1);
      LabelLevel(StateAfter(start, u, i + 1), labels[i].f);
      LabelLevel(StateAfter(start, u, j + 1), labels[i].f);
      LabelLevel(StateAfter(start, u, k + 1), labels[i].f);
    }
  }

  lemma UnbrokenPrefix(labels: seq<Label>, k: nat)
    requires Unbroken(labels) && k <= |labels|
    ensures Unbroken(labels[..k])
  {
  }

  // ---------- the host ----------

  datatype HostState =
    | HostDead | UserinfoStart | Userinfo | HostStart | HostV6Start | HostName | HostV6 | HostV6End
    | PortStart | PortDigits

  function HostChar(s: HostState, c: char): HostState {
    if s.Userinfo? || s.UserinfoStart? then
      if c == '@' then HostStart else if IsUserinfo(c) then Userinfo else HostDead
    else if s.HostStart? then
      if c == '[' then HostV6Start else if IsHostChar(c) then HostName else HostDead
    else if s.HostName? then
      if IsHostChar(c) then HostName else if c == ':' then PortStart else HostDead
    else if s.HostV6End? then
      if c == ':' then PortStart else HostDead
    else if s.HostV6? then
      if c == ']' then HostV6End else if IsHex(c) || c == ':' || c == '.' then HostV6 else HostDead
    else if s.HostV6Start? then
      if IsHex(c) || c == ':' || c == '.' then HostV6 else HostDead
    else if s.PortDigits? || s.PortStart? then
      if IsNum(c) then PortDigits else HostDead
    else HostDead
  }

  function HostAfter(start: HostState, u: string, k: nat): HostState
    requires k <= |u|
  {
    if k == 0 then start else HostChar(HostAfter(start, u, k - 1), u[k - 1])
  }

  function HostLabel(s: HostState): Label {
    if s.HostName? || s.HostV6? then Part(Host)
    else if s.PortDigits? then Part(Port)
    else if s.Userinfo? then Part(UserInfo)
    else Delimiter
  }

  function HostLabels(start: HostState, h: string): (s: seq<Label>)
    ensures |s| == |h|
  {
    seq(|h|, i requires 0 <= i < |h| => HostLabel(HostAfter(start, h, i + 1)))
  }

  function HostLevel(s: HostState): nat {
    if s.UserinfoStart? then 0
    else if s.Userinfo? then 1
    else if s.HostStart? then 2
    else if s.HostV6Start? then 3
    else if s.HostName? || s.HostV6? then 4
    else if s.HostV6End? then 5
    else if s.PortStart? then 6
    else if s.PortDigits? then 7
    else 8
  }

  function HostFieldLevel(f: UrlField): nat { match f case UserInfo => 1 case Host => 4 case Port => 7 case _ => 9 }

  lemma HostForward(s: HostState, c: char)
    ensures HostLevel(s) <= HostLevel(HostChar(s, c))
    ensures s.HostDead? ==> HostChar(s, c).HostDead?
    ensures HostLabel(HostChar(s, c)).Part? && HostLevel(s) == HostLevel(HostChar(s, c)) ==> HostChar(s, c) == s
  {
    hide IsUserinfo, IsHostChar, IsHex;
  }

  lemma {:induction false} HostScanForward(start: HostState, h: string, j: nat, k: nat)
    requires j <= k <= |h|
    ensures HostLevel(HostAfter(start, h, j)) <= HostLevel(HostAfter(start, h, k))
    ensures HostAfter(start, h, j).HostDead? ==> HostAfter(start, h, k).HostDead?
    decreases k
  {
    hide HostChar, HostLevel;
    if j < k {
      HostScanForward(start, h, j, k - 1);
      HostForward(HostAfter(start, h, k - 1), h[k - 1]);
    }
  }

  lemma HostLabelLevel(s: HostState, f: UrlField)
    ensures HostLabel(s) == Part(f) <==> HostLevel(s) == HostFieldLevel(f)
  {
  }

  lemma HostLabelsUnbroken(start: HostState, h: string)
    ensures Unbroken(HostLabels(start, h))
  {
    hide HostLevel, HostLabel, HostFieldLevel, HostAfter;
    var labels := HostLabels(start, h);
    forall i, j, k | 0 <= i < j < k < |labels| && labels[i].Part? && labels[i] == labels[k]
      ensures labels[j] == labels[i]
    {
      HostScanForward(start, h, i + 1, j + 1);
      HostScanForward(start, h, j + 1, k + 1);
      HostLabelLevel(HostAfter(start, h, i + 1), labels[i].f);
      HostLabelLevel(HostAfter(start, h, j + 1), labels[i].f);
      HostLabelLevel(HostAfter(start, h, k + 1), labels[i].f);
    }
  }

  /** Where a host may end. */
  predicate HostEnds(s: HostState) { s.HostName? || s.HostV6End? || s.PortDigits? }

  // ---------- the fields ----------

  datatype Progress = Progress(fields: map<UrlField, Range>, last: Label)

  /** The fields of a string of labels, and the last of them. */
  function Collect(labels: seq<Label>): Progress {
    if labels == [] then Progress(map[], Delimiter)
    else
      var n := |labels| - 1;
      var q := Collect(labels[..n]);
      Progress(Put(q.fields, q.last, labels[n], n), Last(q.last, labels[n]))
  }

  /** They are the ranges of the labels. */
  lemma {:induction false} CollectExactly(labels: seq<Label>)
    requires Unbroken(labels)
    ensures RangesInv(Collect(labels).fields, labels, Collect(labels).last)
    decreases |labels|
  {
    hide Put, RangesInv;
    if labels == [] {
      CollectNothing();
    } else {
      var n := |labels| - 1;
      UnbrokenPrefix(labels, n);
      CollectExactly(labels[..n]);
      assert labels == labels[..n] + [labels[n]];
      PutKeeps(Collect(labels[..n]).fields, labels[..n], Collect(labels[..n]).last, labels[n]);
    }
  }

  lemma CollectNothing()
    ensures RangesInv(map[], [], Delimiter)
  {
  }

  lemma CollectMore(labels: seq<Label>, n: nat)
    requires n < |labels|
    ensures var q := Collect(labels[..n]);
            Collect(labels[..n + 1]) == Progress(Put(q.fields, q.last, labels[n], n), Last(q.last, labels[n]))
  {
    hide Put;
    assert labels[..n + 1][..n] == labels[..n];
  }

  function Pad(n: nat): (s: seq<Label>)
    ensures |s| == n
  {
    seq(n, _ => Delimiter)
  }

  predicate HasAt(start: State, u: string, k: nat)
    requires k <= |u|
  {
    k > 0 && (StateAfter(start, u, k).ReqServerWithAt? || HasAt(start, u, k - 1))
  }

  /** What is left in the struct, and whether the call succeeded; or a schema without a host, for which the
      source reads a host field that it has not set. */
  datatype UrlResult = Undefined | Result(ok: bool, fields: map<UrlField, Range>, port: nat)

  /** The labels that the host's own scan gives to the characters up to its end. */
  function HostPart(buf: string, h: Range, at: bool): (s: seq<Label>)
    requires End(h) <= |buf|
    ensures |s| == End(h)
  {
    Pad(h.off) + HostLabels(if at then UserinfoStart else HostStart, buf[h.off..End(h)])
  }

  predicate HostOk(buf: string, h: Range, at: bool)
    requires End(h) <= |buf|
  {
    HostEnds(HostAfter(if at then UserinfoStart else HostStart, buf[h.off..End(h)], h.len))
  }

  /** What the parse comes to, by the labels of the characters. A failed parse leaves the fields it had. */
  ghost function ParseSpec(buf: string, isConnect: bool): UrlResult {
    var start := Start(isConnect);
    var u := Collect(Labels(start, buf)).fields;
    if StateAfter(start, buf, |buf|).Dead? then Result(false, u, 0)
    else if Host in u && End(u[Host]) <= |buf| then
      var at := HasAt(start, buf, |buf|);
      var v := u[Host := Range(u[Host].off, 0)] + Collect(HostPart(buf, u[Host], at)).fields;
      if HostOk(buf, u[Host], at) then Finished(buf, isConnect, v) else Result(false, v, 0)
    else if Schema in u then Undefined
    else Finished(buf, isConnect, u)
  }

  ghost function Finished(buf: string, isConnect: bool, u: map<UrlField, Range>): UrlResult {
    if isConnect && u.Keys != {Host, Port} then Result(false, u, 0)
    else if Port in u && End(u[Port]) <= |buf| && AllDigits(buf[u[Port].off..End(u[Port])]) then
      var v := Decimal(buf[u[Port].off..End(u[Port])]);
      if v > 0xFFFF then Result(false, u, 0) else Result(true, u, v)
    else Result(true, u, 0)
  }

  /** Delimiters at the end leave no trace. */
  lemma {:induction false} CollectRest(labels: seq<Label>, p: nat)
    requires p <= |labels| && forall i :: p <= i < |labels| ==> labels[i].Delimiter?
    ensures Collect(labels) == Collect(labels[..p])
    decreases |labels| - p
  {
    if p == |labels| {
      assert labels[..p] == labels;
    } else {
      CollectMore(labels, p);
      CollectRest(labels, p + 1);
    }
  }

  lemma HostPartAt(buf: string, h: Range, at: bool, p: nat)
    requires End(h) <= |buf| && p < End(h)
    ensures var host := buf[h.off..End(h)];
            var start := if at then UserinfoStart else HostStart;
            HostPart(buf, h, at)[p] == if p < h.off then Delimiter else HostLabel(HostAfter(start, host, p + 1 - h.off))
  {
    hide HostLabel;
  }

  lemma HostPartUnbroken(buf: string, h: Range, at: bool)
    requires End(h) <= |buf|
    ensures Unbroken(HostPart(buf, h, at))
  {
    var start := if at then UserinfoStart else HostStart;
    var inner := HostLabels(start, buf[h.off..End(h)]);
    var labels := HostPart(buf, h, at);
    HostLabelsUnbroken(start, buf[h.off..End(h)]);
    forall i, j, k | 0 <= i < j < k < |labels| && labels[i].Part? && labels[i] == labels[k]
      ensures labels[j] == labels[i]
    {
      assert labels[i] == inner[i - h.off] && labels[j] == inner[j - h.off] && labels[k] == inner[k - h.off];
    }
  }

  lemma {:induction false} CollectPad(n: nat)
    ensures Collect(Pad(n)) == Progress(map[], Delimiter)
  {
    if n > 0 {
      CollectPad(n - 1);
      assert Pad(n)[..n - 1] == Pad(n - 1);
    }
  }

  /** A field goes on where the character before has the same label. */
  lemma PutLast(labels: seq<Label>, p: nat)
    requires Unbroken(labels) && p < |labels| && labels[p].Part?
    ensures var q := Collect(labels[..p]);
            labels[p] == q.last && labels[p].f in q.fields <==> p > 0 && labels[p - 1] == labels[p]
  {
    hide Unbroken, Put;
    var q, l := Collect(labels[..p]), labels[p];
    UnbrokenPrefix(labels, p);
    UnbrokenPrefix(labels, p + 1);
    CollectExactly(labels[..p]);
    assert labels[..p] + [l] == labels[..p + 1];
    PutPlace(q.fields, labels[..p], q.last, l);
    if p > 0 { CollectMore(labels, p - 1); }
    if l == q.last { EndLabel(q.fields, labels[..p], l.f); }
  }

  lemma SameState(s: HostState, c: char)
    ensures HostLabel(HostChar(s, c)).Part? ==> (HostLabel(s) == HostLabel(HostChar(s, c)) <==> s == HostChar(s, c))
  {
    var t := HostChar(s, c);
    HostForward(s, c);
    if HostLabel(t).Part? {
      HostLabelLevel(s, HostLabel(t).f);
      HostLabelLevel(t, HostLabel(t).f);
    }
  }

  lemma HostNext(start: HostState, host: string, k: nat)
    requires k < |host|
    ensures HostAfter(start, host, k + 1) == HostChar(HostAfter(start, host, k), host[k])
  {
    hide HostChar;
  }

  lemma HostNone(start: HostState, host: string)
    ensures HostAfter(start, host, 0) == start
  {
    hide HostChar;
  }

  /** The host's scan changes its state just when it comes to another field. */
  lemma HostPut(buf: string, h: Range, at: bool, p: nat)
    requires h.off <= p < End(h) <= |buf|
    ensures var start := if at then UserinfoStart else HostStart;
            var s := HostAfter(start, buf[h.off..End(h)], p - h.off);
            var t := HostChar(s, buf[p]);
            var labels := HostPart(buf, h, at);
            var q := Collect(labels[..p]);
            && labels[p] == HostLabel(t)
            && (HostLabel(t).Part? ==> (s == t <==> HostLabel(t) == q.last && HostLabel(t).f in q.fields))
  {
    hide HostLabel, HostChar, Collect, Unbroken, HostPart, HostAfter;
    var start := if at then UserinfoStart else HostStart;
    var host := buf[h.off..End(h)];
    var labels := HostPart(buf, h, at);
    HostNext(start, host, p - h.off);
    HostNone(start, host);
    assert host[p - h.off] == buf[p];
    HostPartAt(buf, h, at, p);
    HostPartUnbroken(buf, h, at);
    if labels[p].Part? {
      PutLast(labels, p);
      SameState(HostAfter(start, host, p - h.off), buf[p]);
      StartLabel(at);
      if p > 0 { HostPartAt(buf, h, at, p - 1); }
    }
  }

  lemma PadPart(buf: string, h: Range, at: bool)
    requires End(h) <= |buf|
    ensures Collect(HostPart(buf, h, at)[..h.off]) == Progress(map[], Delimiter)
  {
    CollectPad(h.off);
    assert HostPart(buf, h, at)[..h.off] == Pad(h.off);
  }

  lemma HostRest(buf: string, h: Range, at: bool, p: nat)
    requires h.off <= p < End(h) <= |buf|
    requires HostAfter(if at then UserinfoStart else HostStart, buf[h.off..End(h)], p + 1 - h.off).HostDead?
    ensures Collect(HostPart(buf, h, at)) == Collect(HostPart(buf, h, at)[..p]) && !HostOk(buf, h, at)
  {
    hide HostChar, HostLevel, HostPart, Collect;
    var start := if at then UserinfoStart else HostStart;
    var host := buf[h.off..End(h)];
    forall i | p <= i < End(h) ensures HostPart(buf, h, at)[i].Delimiter? {
      HostScanForward(start, host, p + 1 - h.off, i + 1 - h.off);
      HostPartAt(buf, h, at, i);
    }
    HostScanForward(start, host, p + 1 - h.off, h.len);
    CollectRest(HostPart(buf, h, at), p);
  }

  lemma StartLabel(at: bool)
    ensures HostLabel(if at then UserinfoStart else HostStart).Delimiter?
  {
  }

  // ---------- the loops ----------

  /** Goes over the characters of the host and splits it. */
  method ParseHost(buf: string, h: Range, at: bool) returns (ok: bool, r: map<UrlField, Range>)
    requires End(h) <= |buf|
    ensures ok == HostOk(buf, h, at)
    ensures r == Collect(HostPart(buf, h, at)).fields
  {
    hide HostChar, HostLabel, HostPart, Collect;
    ghost var start := if at then UserinfoStart else HostStart;
    ghost var host := buf[h.off..End(h)];
    ghost var labels := HostPart(buf, h, at);
    var s := if at then UserinfoStart else HostStart;
    r := map[];
    var p := h.off;
    PadPart(buf, h, at);
    while p < End(h)
      invariant h.off <= p <= End(h)
      invariant s == HostAfter(start, host, p - h.off)
      invariant r == Collect(labels[..p]).fields
    {
      var t := HostChar(s, buf[p]);
      assert HostAfter(start, host, p + 1 - h.off) == t;
      if t.HostDead? {
        HostRest(buf, h, at, p);
        return false, r;
      }
      CollectMore(labels, p);
      HostPut(buf, h, at, p);
      var l := HostLabel(t);
      if l.Part? {
        if s != t { r := r[l.f := Range(p, 0)]; }
        r := r[l.f := Range(r[l.f].off, r[l.f].len + 1)];
      }
      s, p := t, p + 1;
    }
    assert labels[..p] == labels;
    ok := HostEnds(s);
  }

  /** The end of the digits from `k` on. */
  function DigitsEnd(s: string, k: nat): (e: nat)
    requires k <= |s|
    ensures k <= e <= |s| && AllDigits(s[k..e]) && (e < |s| ==> !IsNum(s[e]))
    decreases |s| - k
  {
    if k == |s| || !IsNum(s[k]) then k
    else
      var e := DigitsEnd(s, k + 1);
      assert forall i :: k < i < e ==> s[i] == s[k + 1..e][i - k - 1];
      e
  }

  /** strtoul on a digit string; a value beyond an unsigned long is beyond a port as well. */
  method StrToUl(s: string, off: nat) returns (v: nat)
    requires off <= |s|
    ensures v == Decimal(s[off..DigitsEnd(s, off)])
  {
    hide Decimal;
    v := 0;
    var k := off;
    DecimalNothing(s, k);
    while k < |s| && IsNum(s[k])
      invariant off <= k <= |s| && AllDigits(s[off..k]) && v == Decimal(s[off..k])
      invariant DigitsEnd(s, off) == DigitsEnd(s, k)
    {
      DecimalMore(s, off, k);
      v := v * 10 + DigitVal(s[k]);
      k := k + 1;
    }
  }

  lemma DecimalNothing(s: string, k: nat)
    requires k <= |s|
    ensures AllDigits(s[k..k]) && Decimal(s[k..k]) == 0
  {
  }

  lemma DecimalMore(s: string, off: nat, k: nat)
    requires off <= k < |s| && AllDigits(s[off..k]) && IsNum(s[k])
    ensures AllDigits(s[off..k + 1]) && Decimal(s[off..k + 1]) == Decimal(s[off..k]) * 10 + DigitVal(s[k])
  {
    assert s[off..k + 1][..k - off] == s[off..k];
    assert forall i :: 0 <= i < k - off ==> s[off..k + 1][i] == s[off..k][i];
  }

  // ---------- the port ----------

  lemma PortState(s: HostState, c: char)
    ensures HostChar(s, c).PortDigits? ==> IsNum(c)
    ensures s.PortDigits? ==> HostChar(s, c).PortDigits? || HostChar(s, c).HostDead?
    ensures HostLabel(s) == Part(Port) <==> s.PortDigits?
  {
    hide IsUserinfo, IsHostChar, IsHex;
  }

  /** A port is digits up to the end of the host part. */
  lemma PortIsTail(buf: string, h: Range, at: bool)
    requires End(h) <= |buf| && HostOk(buf, h, at)
    ensures var q := Collect(HostPart(buf, h, at)).fields;
            Port in q ==> h.off <= q[Port].off < End(q[Port]) == End(h) && AllDigits(buf[q[Port].off..End(h)])
  {
    hide HostChar, HostLabel, Collect, HostPart, HostLevel;
    var start := if at then UserinfoStart else HostStart;
    var host := buf[h.off..End(h)];
    var labels := HostPart(buf, h, at);
    var q := Collect(labels).fields;
    HostPartUnbroken(buf, h, at);
    CollectExactly(labels);
    assert Exactly(q, labels, Port);
    if Port in q {
      var r := q[Port];
      forall i | r.off <= i < End(r)
        ensures h.off <= i && IsNum(buf[i]) && HostAfter(start, host, i + 1 - h.off).PortDigits?
      {
        HostPartAt(buf, h, at, i);
        PortState(HostAfter(start, host, i + 1 - h.off), 'x');
        PortState(HostAfter(start, host, i - h.off), host[i - h.off]);
      }
      var e := End(r);
      assert IsNum(buf[r.off]);
      if e < End(h) {
        HostPartAt(buf, h, at, e);
        PortState(HostAfter(start, host, e - h.off), host[e - h.off]);
        PortState(HostAfter(start, host, e + 1 - h.off), 'x');
        HostScanForward(start, host, e + 1 - h.off, h.len);
      }
    }
  }

  lemma ServerNext(s: State, c: char)
    requires LabelOf(s) == Part(Host)
    ensures IsNum(c) ==> LabelOf(UrlChar(s, c)) == Part(Host)
  {
  }

  /** What stands behind the host part is no digit. */
  lemma HostBoundary(start: State, buf: string)
    requires Scanning(start)
    ensures var u := Collect(Labels(start, buf)).fields;
            Host in u ==> End(u[Host]) <= |buf| && (End(u[Host]) < |buf| ==> !IsNum(buf[End(u[Host])]))
  {
    hide Collect, UrlChar, LabelOf;
    var labels := Labels(start, buf);
    var u := Collect(labels).fields;
    LabelsUnbroken(start, buf);
    CollectExactly(labels);
    assert Exactly(u, labels, Host);
    if Host in u {
      var e := End(u[Host]);
      if e < |buf| {
        assert labels[e - 1] == Part(Host);
        assert labels[e] == LabelOf(StateAfter(start, buf, e + 1));
        ServerNext(StateAfter(start, buf, e), buf[e]);
        assert StateAfter(start, buf, e + 1) == UrlChar(StateAfter(start, buf, e), buf[e]);
      }
    }
  }

  lemma {:induction false} NoPort(start: State, buf: string, k: nat)
    requires k <= |buf|
    ensures Port !in Collect(Labels(start, buf)[..k]).fields
    decreases k
  {
    hide StateAfter;
    if k > 0 {
      NoPort(start, buf, k - 1);
      CollectMore(Labels(start, buf), k - 1);
      LabelNotPort(StateAfter(start, buf, k));
    } else {
      assert Labels(start, buf)[..0] == [];
    }
  }

  lemma LabelNotPort(s: State)
    ensures LabelOf(s) != Part(Port)
  {
  }

  lemma {:induction false} LastIn(labels: seq<Label>)
    ensures var q := Collect(labels); q.last.Part? ==> q.last.f in q.fields
    decreases |labels|
  {
    if labels != [] { LastIn(labels[..|labels| - 1]); }
  }

  /** http_parser_parse_url. */
  method ParseUrl(buf: string, isConnect: bool) returns (r: UrlResult)
    ensures r == ParseSpec(buf, isConnect)
  {
    hide UrlChar, LabelOf, Collect, HostPart, HostOk, Scanning, Decimal;
    var start := Start(isConnect);
    StartScans(isConnect);
    ghost var labels := Labels(start, buf);
    var s, u, old_ := start, map[], Delimiter;
    var foundAt := false;
    var p := 0;
    NoLabels(labels);
    while p < |buf|
      invariant 0 <= p <= |buf|
      invariant s == StateAfter(start, buf, p) && !s.Dead?
      invariant Progress(u, old_) == Collect(labels[..p])
      invariant foundAt == HasAt(start, buf, p)
    {
      s := UrlChar(s, buf[p]);
      if s.Dead? {
        DeadRest(start, buf, p);
        return Result(false, u, 0);
      }
      CollectMore(labels, p);
      LastIn(labels[..p]);
      if s.ReqServerWithAt? { foundAt := true; }
      var l := LabelOf(s);
      if l.Part? {
        if l == old_ {
          u := u[l.f := Range(u[l.f].off, u[l.f].len + 1)];
        } else {
          u := u[l.f := Range(p, 1)];
          old_ := l;
        }
      }
      p := p + 1;
    }
    assert labels[..p] == labels;
    NoPort(start, buf, |buf|);
    HostBoundary(start, buf);
    if Host in u {
      var h := u[Host];
      var ok, q := ParseHost(buf, h, foundAt);
      u := u[Host := Range(h.off, 0)] + q;
      if !ok { return Result(false, u, 0); }
      PortIsTail(buf, h, foundAt);
      if Port in q { PortEnd(buf, q[Port], End(h)); }
    } else if Schema in u {
      return Undefined;
    }
    if isConnect && u.Keys != {Host, Port} { return Result(false, u, 0); }
    var port := 0;
    if Port in u {
      port := StrToUl(buf, u[Port].off);
      if port > 0xFFFF { return Result(false, u, 0); }
    }
    return Result(true, u, port);
  }

  lemma PortEnd(buf: string, r: Range, e: nat)
    requires End(r) == e <= |buf| && AllDigits(buf[r.off..e]) && (e < |buf| ==> !IsNum(buf[e]))
    ensures DigitsEnd(buf, r.off) == e
  {
    var d := DigitsEnd(buf, r.off);
    forall i | r.off <= i < e ensures IsNum(buf[i]) { assert buf[i] == buf[r.off..e][i - r.off]; }
    forall i | r.off <= i < d ensures IsNum(buf[i]) { assert buf[i] == buf[r.off..d][i - r.off]; }
  }

  lemma DeadRest(start: State, buf: string, p: nat)
    requires p < |buf| && Scanning(start) && StateAfter(start, buf, p + 1).Dead?
    ensures Collect(Labels(start, buf)) == Collect(Labels(start, buf)[..p]) && StateAfter(start, buf, |buf|).Dead?
  {
    hide UrlChar, Collect, StateAfter, Scanning;
    forall i | p <= i < |buf| ensures Labels(start, buf)[i].Delimiter? { ScanForward(start, buf, p + 1, i + 1); }
    ScanForward(start, buf, p + 1, |buf|);
    CollectRest(Labels(start, buf), p);
  }

  lemma StartScans(isConnect: bool)
    ensures Scanning(Start(isConnect))
  {
  }

  lemma NoLabels(labels: seq<Label>)
    ensures Collect(labels[..0]) == Progress(map[], Delimiter)
  {
  }

  /** Every range lies within the text. */
  ghost predicate Within(fields: map<UrlField, Range>, n: nat) { forall f :: f in fields ==> End(fields[f]) <= n }

  lemma ExactlyWithin(fields: map<UrlField, Range>, labels: seq<Label>)
    requires AllExactly(fields, labels)
    ensures Within(fields, |labels|)
  {
    forall f | f in fields ensures End(fields[f]) <= |labels| { assert Exactly(fields, labels, f); }
  }

  lemma HostPartExactly(buf: string, h: Range, at: bool)
    requires End(h) <= |buf|
    ensures var q := Collect(HostPart(buf, h, at)).fields; AllExactly(q, HostPart(buf, h, at)) && Within(q, |buf|)
  {
    hide HostPart, Collect, Within;
    HostPartUnbroken(buf, h, at);
    CollectExactly(HostPart(buf, h, at));
    ExactlyWithin(Collect(HostPart(buf, h, at)).fields, HostPart(buf, h, at));
    WithinMore(Collect(HostPart(buf, h, at)).fields, End(h), |buf|);
  }

  lemma WithinMore(fields: map<UrlField, Range>, m: nat, n: nat)
    requires Within(fields, m) && m <= n
    ensures Within(fields, n)
  {
  }

  lemma HostLabelsOnly(s: HostState)
    ensures HostLabel(s).Delimiter? || HostLabel(s) == Part(Host) || HostLabel(s) == Part(Port)
            || HostLabel(s) == Part(UserInfo)
  {
  }

  predicate OfHost(f: UrlField) { f.Host? || f.Port? || f.UserInfo? }

  lemma HostPartOnly(buf: string, h: Range, at: bool, f: UrlField)
    requires End(h) <= |buf|
    ensures var q := Collect(HostPart(buf, h, at)).fields; f in q ==> OfHost(f)
  {
    hide HostPart, Collect, HostLabel;
    var q := Collect(HostPart(buf, h, at)).fields;
    HostPartExactly(buf, h, at);
    assert Exactly(q, HostPart(buf, h, at), f);
    if f in q {
      EndLabel(q, HostPart(buf, h, at), f);
      var i := End(q[f]) - 1;
      HostPartAt(buf, h, at, i);
      if i >= h.off {
        HostLabelsOnly(HostAfter(if at then UserinfoStart else HostStart, buf[h.off..End(h)], i + 1 - h.off));
      }
    }
  }

  /** A host that ends well has a name. */
  lemma {:induction false} HostHasName(start: HostState, h: string, k: nat) returns (i: nat)
    requires k <= |h| && 4 <= HostLevel(HostAfter(start, h, k)) <= 7 && HostLevel(start) < 4
    ensures 0 < i <= k && HostLabel(HostAfter(start, h, i)) == Part(Host)
    decreases k
  {
    hide HostLevel, HostLabel, HostChar;
    if HostLabel(HostAfter(start, h, k)) == Part(Host) {
      i := k;
      assert k > 0;
    } else {
      NameBefore(HostAfter(start, h, k - 1), h[k - 1]);
      i := HostHasName(start, h, k - 1);
    }
  }

  lemma NameBefore(s: HostState, c: char)
    ensures 4 <= HostLevel(HostChar(s, c)) <= 7 && HostLabel(HostChar(s, c)) != Part(Host) ==> 4 <= HostLevel(s) <= 7
  {
    hide IsUserinfo, IsHostChar, IsHex, IsNum;
  }

  /** The fields of an outcome: those of the first scan, or those with the host taken apart. */
  lemma SpecFields(buf: string, isConnect: bool)
    requires ParseSpec(buf, isConnect).Result?
    ensures var u := Collect(Labels(Start(isConnect), buf)).fields;
            var r := ParseSpec(buf, isConnect).fields;
            r == u || (Host in u && End(u[Host]) <= |buf| &&
                       r == u[Host := Range(u[Host].off, 0)]
                         + Collect(HostPart(buf, u[Host], HasAt(Start(isConnect), buf, |buf|))).fields)
  {
    hide Collect, Labels, HostPart, StateAfter, HostOk, HasAt, Decimal, AllDigits;
  }

  lemma ExactlySame(r: map<UrlField, Range>, u: map<UrlField, Range>, labels: seq<Label>, f: UrlField)
    requires Exactly(u, labels, f) && (f in r <==> f in u) && (f in r ==> r[f] == u[f])
    ensures Exactly(r, labels, f) && (f in r ==> End(r[f]) <= |labels|)
  {
  }

  /** After any parse whose outcome is defined, schema, path, query and fragment are exactly the characters
      scanned as such. */
  lemma FieldsAreExact(buf: string, isConnect: bool, f: UrlField)
    requires ParseSpec(buf, isConnect).Result?
    ensures var r := ParseSpec(buf, isConnect).fields;
            && (f in r ==> End(r[f]) <= |buf|)
            && (!OfHost(f) ==> Exactly(r, Labels(Start(isConnect), buf), f))
  {
    hide Collect, Labels, HostPart, StateAfter, HasAt, Scanning, OfHost, ParseSpec, Exactly;
    var start := Start(isConnect);
    var labels := Labels(start, buf);
    var u, r := Collect(labels).fields, ParseSpec(buf, isConnect).fields;
    StartScans(isConnect);
    LabelsUnbroken(start, buf);
    CollectExactly(labels);
    SpecFields(buf, isConnect);
    HostFields();
    if r == u {
      ExactlySame(r, u, labels, f);
    } else {
      var h, at := u[Host], HasAt(start, buf, |buf|);
      HostPartExactly(buf, h, at);
      HostPartOnly(buf, h, at, f);
      if !OfHost(f) || f !in Collect(HostPart(buf, h, at)).fields {
        if f != Host { ExactlySame(r, u, labels, f); }
      }
    }
  }

  lemma HostFields()
    ensures OfHost(Host) && OfHost(Port) && OfHost(UserInfo)
  {
  }

  /** And after a successful one, user, host and port are exactly the characters which the host's own scan took
      for them, within what the first scan took for the host. */
  lemma HostIsSplit(buf: string, isConnect: bool, f: UrlField)
    requires ParseSpec(buf, isConnect).Result? && ParseSpec(buf, isConnect).ok && OfHost(f)
    ensures var r := ParseSpec(buf, isConnect).fields;
            var u := Collect(Labels(Start(isConnect), buf)).fields;
            if Host in u then
              && End(u[Host]) <= |buf| && Exactly(u, Labels(Start(isConnect), buf), Host)
              && Exactly(r, HostPart(buf, u[Host], HasAt(Start(isConnect), buf, |buf|)), f)
            else Host !in r
  {
    hide Collect, Labels, HostPart, StateAfter, HasAt, Scanning, Decimal, AllDigits, HostAfter, HostLabel;
    var start := Start(isConnect);
    var labels := Labels(start, buf);
    var u := Collect(labels).fields;
    StartScans(isConnect);
    LabelsUnbroken(start, buf);
    CollectExactly(labels);
    assert Exactly(u, labels, Host);
    if Host in u {
      var h, at := u[Host], HasAt(start, buf, |buf|);
      HostPartExactly(buf, h, at);
      NameIsFound(buf, h, at);
      LabelsNotHost(start, buf, f);
      assert Exactly(Collect(HostPart(buf, h, at)).fields, HostPart(buf, h, at), f);
    }
  }

  lemma NameIsFound(buf: string, h: Range, at: bool)
    requires End(h) <= |buf| && HostOk(buf, h, at)
    ensures Host in Collect(HostPart(buf, h, at)).fields
  {
    hide Collect, HostPart, HostLabel;
    var start := if at then UserinfoStart else HostStart;
    var host := buf[h.off..End(h)];
    var i := HostHasName(start, host, h.len);
    HostPartAt(buf, h, at, h.off + i - 1);
    HostPartExactly(buf, h, at);
    assert Exactly(Collect(HostPart(buf, h, at)).fields, HostPart(buf, h, at), Host);
  }

  lemma LabelsNotHost(start: State, buf: string, f: UrlField)
    requires Scanning(start) && (f.Port? || f.UserInfo? || f.Host?)
    ensures f != Host ==> f !in Collect(Labels(start, buf)).fields
  {
    hide Collect, StateAfter;
    LabelsUnbroken(start, buf);
    CollectExactly(Labels(start, buf));
    assert Exactly(Collect(Labels(start, buf)).fields, Labels(start, buf), f);
    if f != Host && f in Collect(Labels(start, buf)).fields {
      EndLabel(Collect(Labels(start, buf)).fields, Labels(start, buf), f);
    }
  }
}
