/** Printing a url from its fields and taking it apart again. */
module HttpUrlPrint {
  import opened Bytes
  import opened HttpTypes
  import opened HttpSwitch
  import opened HttpHead
  import opened HttpUrl

  // ---------- blocks of labels ----------

  function Rep(f: UrlField, n: nat): (s: seq<Label>)
    ensures |s| == n
  {
    seq(n, _ => Part(f))
  }

  lemma {:induction false} CollectRep(labels: seq<Label>, f: UrlField, n: nat)
    requires f !in Collect(labels).fields && 0 < n
    ensures Collect(labels + Rep(f, n)) == Progress(Collect(labels).fields[f := Range(|labels|, n)], Part(f))
    decreases n
  {
    hide Put;
    var all := labels + Rep(f, n);
    assert all[..|all| - 1] == labels + Rep(f, n - 1);
    assert all[|all| - 1] == Part(f);
    if n == 1 {
      assert labels + Rep(f, 0) == labels;
      PutNew(Collect(labels), f, |labels|);
    } else {
      CollectRep(labels, f, n - 1);
      PutOn(Collect(labels).fields, f, |labels|, n - 1);
    }
  }

  lemma PutNew(q: Progress, f: UrlField, i: nat)
    requires f !in q.fields
    ensures Put(q.fields, q.last, Part(f), i) == q.fields[f := Range(i, 1)]
  {
  }

  lemma PutOn(fields: map<UrlField, Range>, f: UrlField, i: nat, n: nat)
    ensures Put(fields[f := Range(i, n)], Part(f), Part(f), i + n) == fields[f := Range(i, n + 1)]
  {
    assert fields[f := Range(i, n)][f := Range(i, n + 1)] == fields[f := Range(i, n + 1)];
  }

  lemma {:induction false} CollectPad(labels: seq<Label>, n: nat)
    ensures Collect(labels + Pad(n)) == Collect(labels)
    decreases n
  {
    hide Put;
    if n == 0 {
      assert labels + Pad(0) == labels;
    } else {
      var all := labels + Pad(n);
      assert all[..|all| - 1] == labels + Pad(n - 1) && all[|all| - 1] == Delimiter;
      CollectPad(labels, n - 1);
      PutDelimiter(Collect(labels), |all| - 1);
    }
  }

  lemma PutDelimiter(q: Progress, i: nat)
    ensures Progress(Put(q.fields, q.last, Delimiter, i), Last(q.last, Delimiter)) == q
  {
  }

  // ---------- scanning in pieces ----------

  function EndState(s: State, u: string): State { StateAfter(s, u, |u|) }

  lemma {:induction false} StateConcat(s: State, a: string, b: string, k: nat)
    requires k <= |b|
    ensures StateAfter(s, a + b, |a| + k) == StateAfter(EndState(s, a), b, k)
    decreases k
  {
    hide UrlChar;
    if k == 0 {
      StatePrefix(s, a, b, |a|);
    } else {
      assert (a + b)[|a| + k - 1] == b[k - 1];
      StateConcat(s, a, b, k - 1);
    }
  }

  lemma {:induction false} StatePrefix(s: State, a: string, b: string, k: nat)
    requires k <= |a|
    ensures StateAfter(s, a + b, k) == StateAfter(s, a, k)
    decreases k
  {
    hide UrlChar;
    if k > 0 { StatePrefix(s, a, b, k - 1); }
  }

  lemma LabelsConcat(s: State, a: string, b: string)
    ensures Labels(s, a + b) == Labels(s, a) + Labels(EndState(s, a), b)
    ensures EndState(s, a + b) == EndState(EndState(s, a), b)
  {
    hide StateAfter, LabelOf;
    forall i | 0 <= i < |a| + |b| ensures Labels(s, a + b)[i] == (Labels(s, a) + Labels(EndState(s, a), b))[i] {
      if i < |a| { StatePrefix(s, a, b, i + 1); } else { StateConcat(s, a, b, i + 1 - |a|); }
    }
    StateConcat(s, a, b, |b|);
  }

  /** From `s` every character of `u` leads to `t`. */
  predicate Stays(s: State, t: State, u: string) {
    forall i :: 0 <= i < |u| ==> UrlChar(if i == 0 then s else t, u[i]) == t
  }

  lemma {:induction false} StaysAfter(s: State, t: State, u: string, k: nat)
    requires Stays(s, t, u) && k <= |u|
    ensures StateAfter(s, u, k) == if k == 0 then s else t
    decreases k
  {
    hide UrlChar;
    if k > 0 { StaysAfter(s, t, u, k - 1); }
  }

  lemma StaysLabels(s: State, t: State, u: string, f: UrlField)
    requires Stays(s, t, u) && u != "" && LabelOf(t) == Part(f)
    ensures Labels(s, u) == Rep(f, |u|) && EndState(s, u) == t
  {
    hide UrlChar, LabelOf;
    forall k | 0 < k <= |u| ensures StateAfter(s, u, k) == t { StaysAfter(s, t, u, k); }
  }

  lemma OneLabel(s: State, c: char)
    ensures Labels(s, [c]) == [LabelOf(UrlChar(s, c))] && EndState(s, [c]) == UrlChar(s, c)
  {
    hide UrlChar, LabelOf;
    assert StateAfter(s, [c], 1) == UrlChar(StateAfter(s, [c], 0), c);
  }

  // ---------- path, query and fragment ----------

  predicate PathOk(path: string) {
    path != "" && (path[0] == '/' || path[0] == '*') && forall i :: 0 < i < |path| ==> IsUrlChar(path[i])
  }

  predicate QueryOk(query: string) { forall i :: 0 <= i < |query| ==> IsUrlChar(query[i]) || query[i] == '?' }

  predicate FragmentOk(frag: string) {
    forall i :: 0 <= i < |frag| ==> IsUrlChar(frag[i]) || frag[i] == '?' || (i > 0 && frag[i] == '#')
  }

  function QueryText(query: string): string { if query == "" then "" else "?" + query }

  function FragmentText(frag: string): string { if frag == "" then "" else "#" + frag }

  function Suffix(path: string, query: string, frag: string): string {
    path + QueryText(query) + FragmentText(frag)
  }

  /** A field behind one delimiter, or nothing. */
  function Delimited(f: UrlField, n: nat): seq<Label> { if n == 0 then [] else Pad(1) + Rep(f, n) }

  function SuffixLabels(path: string, query: string, frag: string): seq<Label> {
    Rep(Path, |path|) + Delimited(Query, |query|) + Delimited(Fragment_, |frag|)
  }

  lemma PathScans(s: State, path: string)
    requires (s.ReqSpacesBeforeUrl? && PathOk(path)) || (s.ReqServer? && PathOk(path) && path[0] == '/')
    ensures Labels(s, path) == Rep(Path, |path|) && EndState(s, path).ReqPath?
  {
    StaysLabels(s, ReqPath, path, Path);
  }

  lemma QueryScans(s: State, query: string)
    requires (s.ReqPath? || s.ReqServer?) && QueryOk(query) && query != ""
    ensures Labels(s, QueryText(query)) == Pad(1) + Rep(Query, |query|) && EndState(s, QueryText(query)).ReqQuery?
  {
    hide UrlChar;
    OneLabel(s, '?');
    LabelsConcat(s, "?", query);
    QueryChars(s, query);
    StaysLabels(ReqQueryStart, ReqQuery, query, Query);
    assert [Delimiter] == Pad(1);
  }

  lemma QueryChars(s: State, query: string)
    requires (s.ReqPath? || s.ReqServer?) && QueryOk(query)
    ensures UrlChar(s, '?').ReqQueryStart? && Stays(ReqQueryStart, ReqQuery, query)
  {
  }

  lemma FragmentScans(s: State, frag: string)
    requires (s.ReqPath? || s.ReqQuery?) && FragmentOk(frag) && frag != ""
    ensures Labels(s, FragmentText(frag)) == Pad(1) + Rep(Fragment_, |frag|)
            && EndState(s, FragmentText(frag)).ReqFragment?
  {
    hide UrlChar;
    OneLabel(s, '#');
    LabelsConcat(s, "#", frag);
    FragmentChars(s, frag);
    StaysLabels(ReqFragmentStart, ReqFragment, frag, Fragment_);
    assert [Delimiter] == Pad(1);
  }

  lemma FragmentChars(s: State, frag: string)
    requires (s.ReqPath? || s.ReqQuery?) && FragmentOk(frag)
    ensures UrlChar(s, '#').ReqFragmentStart? && Stays(ReqFragmentStart, ReqFragment, frag)
  {
  }

  predicate SuffixOk(s: State, path: string, query: string, frag: string) {
    && QueryOk(query) && FragmentOk(frag)
    && (s.ReqSpacesBeforeUrl? || s.ReqServer?)
    && (if path == "" then s.ReqServer? && (frag == "" || query != "")
        else PathOk(path) && (s.ReqServer? ==> path[0] == '/'))
  }

  lemma SuffixScans(s: State, path: string, query: string, frag: string)
    requires SuffixOk(s, path, query, frag)
    ensures Labels(s, Suffix(path, query, frag)) == SuffixLabels(path, query, frag)
    ensures !EndState(s, Suffix(path, query, frag)).Dead?
  {
    hide Labels, EndState, PathOk, QueryOk, FragmentOk, Pad, Rep, QueryText, FragmentText;
    NoText(s);
    TextOfNothing();
    if path != "" { PathScans(s, path); }
    var s1 := EndState(s, path);
    NoText(s1);
    if query != "" { QueryScans(s1, query); }
    var s2 := EndState(s1, QueryText(query));
    NoText(s2);
    if frag != "" { FragmentScans(s2, frag); }
    LabelsConcat(s, path, QueryText(query));
    LabelsConcat(s, path + QueryText(query), FragmentText(frag));
    assert Rep(Path, 0) == [];
  }

  lemma NoText(s: State)
    ensures Labels(s, "") == [] && EndState(s, "") == s
  {
  }

  lemma TextOfNothing()
    ensures QueryText("") == "" && FragmentText("") == ""
  {
  }

  function PutAt(u: map<UrlField, Range>, f: UrlField, at: nat, n: nat): map<UrlField, Range> {
    if n == 0 then u else u[f := Range(at, n)]
  }

  /** Where path, query and fragment stand if the path begins at `at`. */
  function SuffixFields(
      u: map<UrlField, Range>, at: nat, path: string, query: string, frag: string): map<UrlField, Range> {
    var u1 := PutAt(u, Path, at, |path|);
    var u2 := PutAt(u1, Query, at + |path| + 1, |query|);
    PutAt(u2, Fragment_, at + |path| + |QueryText(query)| + 1, |frag|)
  }

  lemma CollectDelimited(labels: seq<Label>, f: UrlField, n: nat)
    requires f !in Collect(labels).fields
    ensures Collect(labels + Delimited(f, n)).fields == PutAt(Collect(labels).fields, f, |labels| + 1, n)
    ensures |Delimited(f, n)| == if n == 0 then 0 else n + 1
  {
    hide Collect, Rep, Pad;
    if n == 0 {
      assert labels + [] == labels;
    } else {
      assert labels + (Pad(1) + Rep(f, n)) == (labels + Pad(1)) + Rep(f, n);
      CollectPad(labels, 1);
      CollectRep(labels + Pad(1), f, n);
    }
  }

  lemma CollectFirst(labels: seq<Label>, f: UrlField, n: nat)
    requires f !in Collect(labels).fields
    ensures Collect(labels + Rep(f, n)).fields == PutAt(Collect(labels).fields, f, |labels|, n)
  {
    hide Collect;
    if n == 0 { assert labels + Rep(f, n) == labels; } else { CollectRep(labels, f, n); }
  }

  lemma PutAtOther(u: map<UrlField, Range>, f: UrlField, at: nat, n: nat, g: UrlField)
    requires g != f && g !in u
    ensures g !in PutAt(u, f, at, n)
  {
  }

  lemma Associate(a: seq<Label>, b: seq<Label>, c: seq<Label>, d: seq<Label>)
    ensures a + (b + c + d) == ((a + b) + c) + d
  {
  }

  /** Two optional fields in a row, the second from `at` on. */
  lemma CollectTwo(labels: seq<Label>, m: nat, n: nat, at: nat)
    requires Query !in Collect(labels).fields && Fragment_ !in Collect(labels).fields
    requires at == |labels + Delimited(Query, m)|
    ensures Collect(labels + Delimited(Query, m) + Delimited(Fragment_, n)).fields
         == PutAt(PutAt(Collect(labels).fields, Query, |labels| + 1, m), Fragment_, at + 1, n)
  {
    hide Collect, Delimited, PutAt;
    var l := labels + Delimited(Query, m);
    CollectDelimited(labels, Query, m);
    PutAtOther(Collect(labels).fields, Query, |labels| + 1, m, Fragment_);
    CollectDelimited(l, Fragment_, n);
    SameMap(Collect(l).fields, PutAt(Collect(labels).fields, Query, |labels| + 1, m), Fragment_, at + 1, n);
  }

  lemma SameMap(u: map<UrlField, Range>, v: map<UrlField, Range>, f: UrlField, at: nat, n: nat)
    requires u == v
    ensures PutAt(u, f, at, n) == PutAt(v, f, at, n)
  {
  }

  /** And three, the third from `at` on. */
  lemma CollectThree(labels: seq<Label>, k: nat, m: nat, n: nat, at: nat)
    requires var u := Collect(labels).fields; Path !in u && Query !in u && Fragment_ !in u
    requires at == |labels| + k + |Delimited(Query, m)|
    ensures Collect(labels + Rep(Path, k) + Delimited(Query, m) + Delimited(Fragment_, n)).fields
         == PutAt(PutAt(PutAt(Collect(labels).fields, Path, |labels|, k), Query, |labels| + k + 1, m), Fragment_,
            at + 1, n)
  {
    hide Collect, Rep, Delimited, PutAt;
    var l1 := labels + Rep(Path, k);
    var u1 := PutAt(Collect(labels).fields, Path, |labels|, k);
    CollectFirst(labels, Path, k);
    PutAtOther(Collect(labels).fields, Path, |labels|, k, Query);
    PutAtOther(Collect(labels).fields, Path, |labels|, k, Fragment_);
    CollectTwo(l1, m, n, at);
    SameMaps(Collect(l1).fields, u1, |l1| + 1, m, at + 1, n);
  }

  lemma SameMaps(u: map<UrlField, Range>, v: map<UrlField, Range>, i: nat, m: nat, j: nat, n: nat)
    requires u == v
    ensures PutAt(PutAt(u, Query, i, m), Fragment_, j, n) == PutAt(PutAt(v, Query, i, m), Fragment_, j, n)
  {
  }

  lemma SuffixCollects(labels: seq<Label>, path: string, query: string, frag: string)
    requires var u := Collect(labels).fields; Path !in u && Query !in u && Fragment_ !in u
    ensures Collect(labels + SuffixLabels(path, query, frag)).fields
         == SuffixFields(Collect(labels).fields, |labels|, path, query, frag)
  {
    hide Collect, Rep, Delimited, PutAt, QueryText;
    QueryLength(query);
    CollectThree(labels, |path|, |query|, |frag|, |labels| + |path| + |QueryText(query)|);
    Associate(labels, Rep(Path, |path|), Delimited(Query, |query|), Delimited(Fragment_, |frag|));
  }

  lemma QueryLength(query: string)
    ensures |QueryText(query)| == |Delimited(Query, |query|)|
  {
  }

  /** A url that begins with its path: what was printed is found, where it was printed, and nothing else. */
  lemma OriginFormRead(path: string, query: string, frag: string)
    requires SuffixOk(ReqSpacesBeforeUrl, path, query, frag)
    ensures ParseSpec(Suffix(path, query, frag), false) == Result(true, SuffixFields(map[], 0, path, query, frag), 0)
  {
    hide SuffixOk, SuffixLabels, SuffixFields, StateAfter, Labels, Collect, HostPart, HostOk, HasAt, Suffix;
    SuffixScans(ReqSpacesBeforeUrl, path, query, frag);
    NoFields();
    SuffixCollects([], path, query, frag);
    assert [] + SuffixLabels(path, query, frag) == SuffixLabels(path, query, frag);
    NoServer(path, query, frag);
  }

  lemma NoServer(path: string, query: string, frag: string)
    ensures var u := SuffixFields(map[], 0, path, query, frag); Host !in u && Schema !in u && Port !in u
  {
    hide QueryText;
  }

  lemma NoFields()
    ensures Collect([]) == Progress(map[], Delimiter)
  {
  }

  // ---------- schema, userinfo, host and port ----------

  predicate SchemaOk(schema: string) { schema != "" && forall i :: 0 <= i < |schema| ==> IsAlpha(schema[i]) }

  /** The server part of a url; userinfo and port may be empty, and are then left out with their delimiters. */
  datatype Server = Server(user: string, v6: bool, host: string, port: string)

  predicate UserOk(user: string) { forall i :: 0 <= i < |user| ==> IsUserinfo(user[i]) }

  /** A name or a dotted address, or what stands in brackets. */
  predicate HostTextOk(v6: bool, host: string) {
    host != "" && forall i :: 0 <= i < |host| ==>
      if v6 then IsHex(host[i]) || host[i] == ':' || host[i] == '.' else IsHostChar(host[i])
  }

  predicate ServerOk(s: Server) { UserOk(s.user) && HostTextOk(s.v6, s.host) && AllDigits(s.port) }

  function UserText(s: Server): string { if s.user == "" then "" else s.user + "@" }

  function HostText(s: Server): string { if s.v6 then "[" + s.host + "]" else s.host }

  function PortText(s: Server): string { if s.port == "" then "" else ":" + s.port }

  function Authority(s: Server): string { UserText(s) + (HostText(s) + PortText(s)) }

  /** Where the host begins in it. */
  function HostFrom(s: Server): nat { |UserText(s)| + if s.v6 then 1 else 0 }

  lemma SchemaScans(schema: string)
    requires SchemaOk(schema)
    ensures Labels(ReqSpacesBeforeUrl, schema) == Rep(Schema, |schema|)
            && EndState(ReqSpacesBeforeUrl, schema).ReqSchema?
  {
    StaysLabels(ReqSpacesBeforeUrl, ReqSchema, schema, Schema);
  }

  lemma SlashMoves()
    ensures UrlChar(ReqSchema, ':').ReqSchemaSlash? && UrlChar(ReqSchemaSlash, '/').ReqSchemaSlashSlash?
    ensures UrlChar(ReqSchemaSlashSlash, '/').ReqServerStart?
    ensures LabelOf(ReqSchemaSlash).Delimiter? && LabelOf(ReqSchemaSlashSlash).Delimiter?
            && LabelOf(ReqServerStart).Delimiter?
  {
  }

  lemma SlashesScan()
    ensures Labels(ReqSchema, "://") == Pad(3) && EndState(ReqSchema, "://").ReqServerStart?
  {
    hide Labels, EndState;
    SlashMoves();
    OneLabel(ReqSchema, ':');
    OneLabel(ReqSchemaSlash, '/');
    OneLabel(ReqSchemaSlashSlash, '/');
    LabelsConcat(ReqSchema, ":", "/");
    LabelsConcat(ReqSchema, ":" + "/", "/");
    assert "://" == ":" + "/" + "/";
  }

  /** The characters of a server other than the at sign. */
  predicate IsServerChar(c: char) { IsUserinfo(c) || c == '[' || c == ']' }

  lemma ServerStays(c: char)
    requires IsServerChar(c)
    ensures UrlChar(ReqServerStart, c) == UrlChar(ReqServer, c) == UrlChar(ReqServerWithAt, c) == ReqServer
  {
  }

  lemma ServerChars(s: State, u: string)
    requires s.ReqServerStart? || s.ReqServerWithAt?
    requires forall i :: 0 <= i < |u| ==> IsServerChar(u[i])
    ensures Stays(s, ReqServer, u)
  {
    hide IsServerChar, UrlChar;
    forall i | 0 <= i < |u| ensures UrlChar(if i == 0 then s else ReqServer, u[i]) == ReqServer { ServerStays(u[i]); }
  }

  lemma HostPortChars(s: Server)
    requires ServerOk(s)
    ensures var u := HostText(s) + PortText(s); u != "" && forall i :: 0 <= i < |u| ==> IsServerChar(u[i])
  {
    var u := HostText(s) + PortText(s);
    forall i | 0 <= i < |u| ensures IsServerChar(u[i]) {
      var n := |HostText(s)|;
      if i < n {
        assert u[i] == HostText(s)[i];
        if s.v6 && 0 < i < n - 1 { assert u[i] == s.host[i - 1]; }
      } else {
        assert u[i] == PortText(s)[i - n];
        if i > n { assert u[i] == s.port[i - n - 1]; }
      }
    }
  }

  lemma UserScans(s: Server)
    requires ServerOk(s) && s.user != ""
    ensures Labels(ReqServerStart, s.user) == Rep(Host, |s.user|) && EndState(ReqServerStart, s.user) == ReqServer
    ensures Labels(ReqServerStart, UserText(s)) == Rep(Host, |UserText(s)|)
            && EndState(ReqServerStart, UserText(s)) == ReqServerWithAt
  {
    hide UrlChar, StateAfter, IsUserinfo, IsHex, Stays;
    assert forall i :: 0 <= i < |s.user| ==> IsServerChar(s.user[i]);
    ServerChars(ReqServerStart, s.user);
    StaysLabels(ReqServerStart, ReqServer, s.user, Host);
    AtSign();
    OneLabel(ReqServer, '@');
    LabelsConcat(ReqServerStart, s.user, "@");
  }

  lemma AtSign()
    ensures UrlChar(ReqServer, '@') == ReqServerWithAt
  {
  }

  /** All of it is scanned as host, and the at sign is what tells it apart. */
  lemma AuthorityScans(s: Server)
    requires ServerOk(s)
    ensures Labels(ReqServerStart, Authority(s)) == Rep(Host, |Authority(s)|)
            && EndState(ReqServerStart, Authority(s)) == ReqServer
    ensures Authority(s) != ""
    ensures forall i :: 0 <= i <= |Authority(s)| ==>
              (StateAfter(ReqServerStart, Authority(s), i).ReqServerWithAt? <==> s.user != "" && i == |UserText(s)|)
  {
    hide UrlChar, StateAfter, ServerOk, IsServerChar, Stays, HostText, PortText;
    var rest := HostText(s) + PortText(s);
    HostPortChars(s);
    if s.user == "" {
      assert Authority(s) == rest;
      ServerChars(ReqServerStart, rest);
      StaysLabels(ReqServerStart, ReqServer, rest, Host);
      forall i | 0 <= i <= |rest| ensures !StateAfter(ReqServerStart, rest, i).ReqServerWithAt? {
        StaysAfter(ReqServerStart, ReqServer, rest, i);
      }
    } else {
      UserScans(s);
      ServerChars(ReqServerWithAt, rest);
      StaysLabels(ReqServerWithAt, ReqServer, rest, Host);
      LabelsConcat(ReqServerStart, UserText(s), rest);
      forall i | 0 <= i <= |Authority(s)|
        ensures StateAfter(ReqServerStart, Authority(s), i).ReqServerWithAt? <==> i == |UserText(s)|
      {
        OneAt(s, rest, i);
      }
    }
  }

  lemma OneAt(s: Server, rest: string, i: nat)
    requires ServerOk(s) && s.user != "" && i <= |UserText(s)| + |rest|
    requires EndState(ReqServerStart, UserText(s)) == ReqServerWithAt && Stays(ReqServerWithAt, ReqServer, rest)
    ensures StateAfter(ReqServerStart, UserText(s) + rest, i).ReqServerWithAt? <==> i == |UserText(s)|
  {
    hide UrlChar, StateAfter, IsServerChar, Stays, IsUserinfo;
    var n := |UserText(s)|;
    if i >= n {
      StateConcat(ReqServerStart, UserText(s), rest, i - n);
      StaysAfter(ReqServerWithAt, ReqServer, rest, i - n);
    } else {
      StatePrefix(ReqServerStart, UserText(s), rest, i);
      StatePrefix(ReqServerStart, s.user, "@", i);
      UserChars(s);
      ServerChars(ReqServerStart, s.user);
      StaysAfter(ReqServerStart, ReqServer, s.user, i);
    }
  }

  lemma UserChars(s: Server)
    requires ServerOk(s)
    ensures forall i :: 0 <= i < |s.user| ==> IsServerChar(s.user[i])
  {
  }

  function Before(schema: string, s: Server): string { schema + "://" + Authority(s) }

  function BeforeLabels(schema: string, s: Server): seq<Label> {
    Rep(Schema, |schema|) + Pad(3) + Rep(Host, |Authority(s)|)
  }

  lemma BeforeScans(schema: string, s: Server)
    requires SchemaOk(schema) && ServerOk(s)
    ensures Labels(ReqSpacesBeforeUrl, Before(schema, s)) == BeforeLabels(schema, s)
    ensures EndState(ReqSpacesBeforeUrl, Before(schema, s)).ReqServer?
  {
    hide Labels, EndState, Rep, Pad, ServerOk, SchemaOk, Authority;
    SchemaScans(schema);
    SlashesScan();
    AuthorityScans(s);
    LabelsConcat(ReqSpacesBeforeUrl, schema, "://");
    LabelsConcat(ReqSpacesBeforeUrl, schema + "://", Authority(s));
  }

  lemma BeforeCollects(schema: string, s: Server)
    requires schema != "" && Authority(s) != ""
    ensures Collect(BeforeLabels(schema, s)).fields
         == map[Schema := Range(0, |schema|), Host := Range(|schema| + 3, |Authority(s)|)]
  {
    hide Collect, Rep, Pad, Authority;
    var n := |Authority(s)|;
    NoFields();
    assert [] + Rep(Schema, |schema|) == Rep(Schema, |schema|);
    CollectRep([], Schema, |schema|);
    CollectPad(Rep(Schema, |schema|), 3);
    CollectRep(Rep(Schema, |schema|) + Pad(3), Host, n);
  }

  // ---------- the host's own scan ----------

  function HostStartOf(s: Server): HostState { if s.user == "" then HostStart else UserinfoStart }

  /** The states of that scan along a printed server. */
  function ServerState(s: Server, k: nat): HostState {
    var u, h := |UserText(s)|, |HostText(s)|;
    if k == 0 then HostStartOf(s)
    else if k < u then Userinfo
    else if k == u then HostStart
    else if k <= u + h then
      if !s.v6 then HostName else if k == u + 1 then HostV6Start else if k < u + h then HostV6 else HostV6End
    else if k == u + h + 1 then PortStart
    else PortDigits
  }

  lemma ServerStep(s: Server, k: nat)
    requires ServerOk(s) && 0 < k <= |Authority(s)|
    ensures HostChar(ServerState(s, k - 1), Authority(s)[k - 1]) == ServerState(s, k)
  {
    var u, h := |UserText(s)|, |HostText(s)|;
    var c := Authority(s)[k - 1];
    if k <= u {
      assert c == UserText(s)[k - 1];
    } else if k <= u + h {
      assert c == HostText(s)[k - 1 - u];
      if s.v6 && u + 1 < k < u + h { assert c == s.host[k - 2 - u]; HexIsNoBracket(c); }
    } else {
      assert c == PortText(s)[k - 1 - u - h];
      if k > u + h + 1 { assert c == s.port[k - 2 - u - h]; }
    }
  }

  lemma HexIsNoBracket(c: char)
    requires IsHex(c) || c == ':' || c == '.'
    ensures c != ']'
  {
  }

  lemma {:induction false} ServerAfter(s: Server, k: nat)
    requires ServerOk(s) && k <= |Authority(s)|
    ensures HostAfter(HostStartOf(s), Authority(s), k) == ServerState(s, k)
    decreases k
  {
    hide ServerOk, HostChar, ServerState, Authority;
    if k > 0 {
      ServerAfter(s, k - 1);
      ServerStep(s, k);
    } else {
      StateAtFirst(s);
    }
  }

  lemma StateAtFirst(s: Server)
    ensures ServerState(s, 0) == HostStartOf(s)
  {
  }

  function UserLabels(s: Server): seq<Label> { if s.user == "" then [] else Rep(UserInfo, |s.user|) + Pad(1) }

  function HostNameLabels(s: Server): seq<Label> {
    if s.v6 then Pad(1) + Rep(Host, |s.host|) + Pad(1) else Rep(Host, |s.host|)
  }

  function ServerLabels(s: Server): seq<Label> { UserLabels(s) + HostNameLabels(s) + Delimited(Port, |s.port|) }

  lemma AuthorityLabels(s: Server)
    requires ServerOk(s)
    ensures HostLabels(HostStartOf(s), Authority(s)) == ServerLabels(s)
    ensures HostEnds(HostAfter(HostStartOf(s), Authority(s), |Authority(s)|))
  {
    hide HostAfter, UserOk, AllDigits, IsHostChar, IsHex, Authority, ServerState, ServerLabels;
    var a := Authority(s);
    forall k | 0 <= k <= |a| ensures HostAfter(HostStartOf(s), a, k) == ServerState(s, k) { ServerAfter(s, k); }
    LabelsLength(s);
    forall k | 0 <= k < |a| ensures HostLabels(HostStartOf(s), a)[k] == ServerLabels(s)[k] { LabelAt(s, k); }
    LastState(s);
  }

  lemma LabelsLength(s: Server)
    ensures |ServerLabels(s)| == |Authority(s)|
  {
  }

  lemma LabelAt(s: Server, k: nat)
    requires s.host != "" && k < |Authority(s)|
    ensures |ServerLabels(s)| == |Authority(s)| && ServerLabels(s)[k] == HostLabel(ServerState(s, k + 1))
  {
    LabelsLength(s);
    UserLength(s);
    NameLength(s);
    var u, h := |UserText(s)|, |HostText(s)|;
    if k < u {
      assert ServerLabels(s)[k] == UserLabels(s)[k];
    } else if k < u + h {
      assert ServerLabels(s)[k] == HostNameLabels(s)[k - u];
    } else {
      assert ServerLabels(s)[k] == Delimited(Port, |s.port|)[k - u - h];
    }
  }

  lemma UserLength(s: Server)
    ensures |UserLabels(s)| == |UserText(s)|
  {
  }

  lemma NameLength(s: Server)
    ensures |HostNameLabels(s)| == |HostText(s)|
  {
  }

  lemma LastState(s: Server)
    requires s.host != ""
    ensures HostEnds(ServerState(s, |Authority(s)|))
  {
  }

  /** Where the fields of the server stand if it begins at `off`. */
  function ServerFields(off: nat, s: Server): map<UrlField, Range> {
    PutAt(PutAt(PutAt(map[], UserInfo, off, |s.user|), Host, off + HostFrom(s), |s.host|),
          Port, off + |Authority(s)| - |s.port|, |s.port|)
  }

  lemma UserCollects(labels: seq<Label>, s: Server)
    requires Collect(labels).fields == map[]
    ensures Collect(labels + UserLabels(s)).fields == PutAt(map[], UserInfo, |labels|, |s.user|)
    ensures |UserLabels(s)| == |UserText(s)|
  {
    hide Collect, Rep, Pad;
    if s.user == "" {
      assert labels + [] == labels;
    } else {
      CollectRep(labels, UserInfo, |s.user|);
      CollectPad(labels + Rep(UserInfo, |s.user|), 1);
      assert labels + UserLabels(s) == labels + Rep(UserInfo, |s.user|) + Pad(1);
    }
  }

  lemma HostCollects(labels: seq<Label>, s: Server)
    requires Host !in Collect(labels).fields && s.host != ""
    ensures Collect(labels + HostNameLabels(s)).fields
         == PutAt(Collect(labels).fields, Host, |labels| + (if s.v6 then 1 else 0), |s.host|)
    ensures |HostNameLabels(s)| == |HostText(s)|
  {
    hide Collect, Rep, Pad;
    if s.v6 {
      CollectPad(labels, 1);
      CollectRep(labels + Pad(1), Host, |s.host|);
      CollectPad(labels + Pad(1) + Rep(Host, |s.host|), 1);
      assert labels + HostNameLabels(s) == labels + Pad(1) + Rep(Host, |s.host|) + Pad(1);
    } else {
      CollectRep(labels, Host, |s.host|);
    }
  }

  lemma ServerCollects(labels: seq<Label>, s: Server)
    requires Collect(labels).fields == map[] && s.host != ""
    ensures Collect(labels + ServerLabels(s)).fields == ServerFields(|labels|, s)
  {
    hide Collect, Rep, Pad, UserLabels, HostNameLabels, Delimited, PutAt, UserText, HostText;
    var l1 := labels + UserLabels(s);
    var l2 := l1 + HostNameLabels(s);
    UserCollects(labels, s);
    PutAtOther(map[], UserInfo, |labels|, |s.user|, Host);
    PutAtOther(map[], UserInfo, |labels|, |s.user|, Port);
    HostCollects(l1, s);
    PutAtOther(Collect(l1).fields, Host, |labels| + HostFrom(s), |s.host|, Port);
    CollectDelimited(l2, Port, |s.port|);
    Associate2(labels, UserLabels(s), HostNameLabels(s), Delimited(Port, |s.port|));
    PortLength(s);
    SameMap(Collect(l2).fields, PutAt(Collect(l1).fields, Host, |labels| + HostFrom(s), |s.host|), Port,
            |labels| + |Authority(s)| - |s.port|, |s.port|);
    PortPlace(Collect(l2).fields, |l2| + 1, |labels| + |Authority(s)| - |s.port|, |s.port|);
  }

  lemma Associate2(a: seq<Label>, b: seq<Label>, c: seq<Label>, d: seq<Label>)
    ensures a + (b + c + d) == a + b + c + d
  {
  }

  lemma PortPlace(u: map<UrlField, Range>, at: nat, at': nat, n: nat)
    requires n > 0 ==> at == at'
    ensures PutAt(u, Port, at, n) == PutAt(u, Port, at', n)
  {
  }

  lemma PortLength(s: Server)
    ensures |Authority(s)| == |UserText(s)| + |HostText(s)| + if s.port == "" then 0 else |s.port| + 1
  {
  }

  /** The host part of a printed url. */
  lemma HostRead(buf: string, off: nat, s: Server)
    requires ServerOk(s)
    requires off + |Authority(s)| <= |buf| && buf[off..off + |Authority(s)|] == Authority(s)
    ensures var h := Range(off, |Authority(s)|);
            HostOk(buf, h, s.user != "") && Collect(HostPart(buf, h, s.user != "")).fields == ServerFields(off, s)
  {
    hide Collect, HostAfter, HostLabels, UserOk, AllDigits, Rep, Pad, ServerLabels, ServerFields, Authority;
    AuthorityLabels(s);
    assert HostPart(buf, Range(off, |Authority(s)|), s.user != "") == Pad(off) + ServerLabels(s);
    NoFields();
    assert [] + Pad(off) == Pad(off);
    CollectPad([], off);
    ServerCollects(Pad(off), s);
  }

  // ---------- the whole url ----------

  lemma {:induction false} NoAt(s: State, u: string, k: nat)
    requires k <= |u| && forall i :: 0 < i <= k ==> !StateAfter(s, u, i).ReqServerWithAt?
    ensures !HasAt(s, u, k)
    decreases k
  {
    hide StateAfter;
    if k > 0 { NoAt(s, u, k - 1); }
  }

  lemma {:induction false} AnAt(s: State, u: string, i: nat, k: nat)
    requires 0 < i <= k <= |u| && StateAfter(s, u, i).ReqServerWithAt?
    ensures HasAt(s, u, k)
    decreases k
  {
    hide StateAfter;
    if i < k { AnAt(s, u, i, k - 1); }
  }

  /** Neither the slashes nor what stands behind the host belongs to the host. */
  lemma SuffixNoHost(path: string, query: string, frag: string)
    ensures forall i :: 0 <= i < |SuffixLabels(path, query, frag)| ==> SuffixLabels(path, query, frag)[i] != Part(Host)
  {
  }

  lemma AtLabel(s: State)
    ensures s.ReqServerWithAt? ==> LabelOf(s) == Part(Host)
  {
  }

  /** A printed url has an at sign in its host part exactly if it has userinfo. */
  lemma PrintedHasAt(schema: string, s: Server, path: string, query: string, frag: string)
    requires SchemaOk(schema) && ServerOk(s) && SuffixOk(ReqServer, path, query, frag)
    ensures var u := Before(schema, s) + Suffix(path, query, frag); HasAt(ReqSpacesBeforeUrl, u, |u|) <==> s.user != ""
  {
    hide StateAfter, SuffixOk, SuffixLabels, Suffix, SchemaOk, ServerOk, HasAt, Stays, LabelOf, Authority, UserText;
    var s0, b, x, n := ReqSpacesBeforeUrl, Before(schema, s), Suffix(path, query, frag), |schema| + 3;
    var u := b + x;
    forall i | 0 < i <= |u|
      ensures StateAfter(s0, u, i).ReqServerWithAt? <==> s.user != "" && i == n + |UserText(s)|
    {
      AtPlace(schema, s, path, query, frag, i);
    }
    if s.user == "" { NoAt(s0, u, |u|); } else { UserShort(s); AnAt(s0, u, n + |UserText(s)|, |u|); }
  }

  lemma UserShort(s: Server)
    ensures |UserText(s)| <= |Authority(s)|
  {
  }

  lemma AtPlace(schema: string, s: Server, path: string, query: string, frag: string, i: nat)
    requires SchemaOk(schema) && ServerOk(s) && SuffixOk(ReqServer, path, query, frag)
    requires 0 < i <= |Before(schema, s) + Suffix(path, query, frag)|
    ensures StateAfter(ReqSpacesBeforeUrl, Before(schema, s) + Suffix(path, query, frag), i).ReqServerWithAt?
       <==> s.user != "" && i == |schema| + 3 + |UserText(s)|
  {
    hide StateAfter, SuffixOk, SuffixLabels, Suffix, SchemaOk, ServerOk, Stays, LabelOf, Authority, UserText;
    var s0, b, x, a, n := ReqSpacesBeforeUrl, Before(schema, s), Suffix(path, query, frag), Authority(s), |schema| + 3;
    AtLabel(StateAfter(s0, b + x, i));
    AuthorityScans(s);
    UserShort(s);
    BeforeScans(schema, s);
    SchemaScans(schema);
    SlashesScan();
    LabelsConcat(s0, schema, "://");
    if i > |b| {
      SuffixScans(ReqServer, path, query, frag);
      SuffixNoHost(path, query, frag);
      StateConcat(s0, b, x, i - |b|);
      assert Labels(ReqServer, x)[i - |b| - 1] == LabelOf(StateAfter(ReqServer, x, i - |b|));
    } else {
      StatePrefix(s0, b, x, i);
      if i >= n {
        StateConcat(s0, schema + "://", a, i - n);
      } else {
        assert Labels(s0, b)[i - 1] == LabelOf(StateAfter(s0, b, i));
        assert BeforeLabels(schema, s)[i - 1] != Part(Host);
        AtLabel(StateAfter(s0, b, i));
      }
      UserPositive(s);
    }
  }

  lemma UserPositive(s: Server)
    ensures s.user != "" ==> |UserText(s)| > 0
  {
  }

  /** Where the fields of a printed url stand. */
  function UrlFields(schema: string, s: Server, path: string, query: string, frag: string): map<UrlField, Range> {
    var off := |schema| + 3;
    SuffixFields(map[Schema := Range(0, |schema|)], off + |Authority(s)|, path, query, frag) + ServerFields(off, s)
  }

  lemma SplitFields(schema: string, s: Server, path: string, query: string, frag: string)
    ensures var off := |schema| + 3;
            var n := |Authority(s)|;
            var u := SuffixFields(map[Schema := Range(0, |schema|), Host := Range(off, n)], off + n, path, query, frag);
            && Schema in u && Host in u && u[Host] == Range(off, n)
            && u - {Host} == SuffixFields(map[Schema := Range(0, |schema|)], off + n, path, query, frag)
  {
    hide Authority;
    var off := |schema| + 3;
    var n := |Authority(s)|;
    var u0 := map[Schema := Range(0, |schema|), Host := Range(off, n)];
    assert u0 - {Host} == map[Schema := Range(0, |schema|)];
  }

  lemma SuffixFieldsConcat(schema: string, s: Server, path: string, query: string, frag: string)
    requires SchemaOk(schema) && ServerOk(s) && SuffixOk(ReqServer, path, query, frag)
    ensures var u := Before(schema, s) + Suffix(path, query, frag);
            var off := |schema| + 3;
            var n := |Authority(s)|;
            && !EndState(ReqSpacesBeforeUrl, u).Dead?
            && Collect(Labels(ReqSpacesBeforeUrl, u)).fields
               == SuffixFields(map[Schema := Range(0, |schema|), Host := Range(off, n)], off + n, path, query, frag)
  {
    hide Labels, EndState, SuffixOk, SuffixLabels, Suffix, Collect, PutAt, Rep, Pad, QueryText, Authority, ServerOk;
    var b := Before(schema, s);
    BeforeScans(schema, s);
    AuthorityScans(s);
    SuffixScans(ReqServer, path, query, frag);
    LabelsConcat(ReqSpacesBeforeUrl, b, Suffix(path, query, frag));
    BeforeCollects(schema, s);
    SuffixCollects(BeforeLabels(schema, s), path, query, frag);
  }

  /** The server, its host and its port where they were printed. */
  lemma HostSlice(schema: string, s: Server, rest: string)
    ensures var u := Before(schema, s) + rest;
            var off := |schema| + 3;
            var n := |Authority(s)|;
            && off + n <= |u| && u[off..off + n] == Authority(s)
            && HostFrom(s) + |s.host| + |s.port| <= n
            && u[off + HostFrom(s)..off + HostFrom(s) + |s.host|] == s.host
            && u[off + n - |s.port|..off + n] == s.port
  {
    var u := Before(schema, s) + rest;
    var off := |schema| + 3;
    var a := Authority(s);
    ServerSlice(s);
    hide Authority, HostFrom;
    assert u[off..off + |a|] == a;
    SubSlice(u, off, a, HostFrom(s), HostFrom(s) + |s.host|);
    SubSlice(u, off, a, |a| - |s.port|, |a|);
  }

  lemma SubSlice(u: string, off: nat, a: string, i: nat, j: nat)
    requires off + |a| <= |u| && u[off..off + |a|] == a && i <= j <= |a|
    ensures u[off + i..off + j] == a[i..j]
  {
    forall k | 0 <= k < j - i ensures u[off + i..off + j][k] == a[i..j][k] {
      assert a[i + k] == u[off..off + |a|][i + k];
    }
  }

  lemma ServerSlice(s: Server)
    ensures var a := Authority(s);
            && HostFrom(s) + |s.host| + |s.port| <= |a|
            && a[HostFrom(s)..HostFrom(s) + |s.host|] == s.host && a[|a| - |s.port|..] == s.port
  {
    var a := Authority(s);
    var h := HostText(s);
    var u := |UserText(s)|;
    assert a[u..u + |h|] == h;
    assert h[(if s.v6 then 1 else 0)..(if s.v6 then 1 else 0) + |s.host|] == s.host;
    SubSlice(a, u, h, if s.v6 then 1 else 0, (if s.v6 then 1 else 0) + |s.host|);
  }

  lemma FieldsHavePort(schema: string, s: Server, path: string, query: string, frag: string)
    requires s.host != ""
    ensures var r := UrlFields(schema, s, path, query, frag);
            && (Port in r <==> s.port != "")
            && (s.port != "" ==> r[Port] == Range(|schema| + 3 + |Authority(s)| - |s.port|, |s.port|))
            && Host in r && r[Host] == Range(|schema| + 3 + HostFrom(s), |s.host|)
            && (UserInfo in r <==> s.user != "") && (s.user != "" ==> r[UserInfo] == Range(|schema| + 3, |s.user|))
            && (Path in r <==> path != "")
            && (path != "" ==> r[Path] == Range(|schema| + 3 + |Authority(s)|, |path|))
  {
    hide Authority, HostFrom, QueryText;
    PortShort(s);
  }

  lemma PortShort(s: Server)
    ensures |s.port| <= |Authority(s)|
  {
  }

  /** A url with schema and server, likewise; the port is what its digits say, or the url is refused. */
  lemma AbsoluteFormRead(schema: string, s: Server, path: string, query: string, frag: string)
    requires SchemaOk(schema) && ServerOk(s) && SuffixOk(ReqServer, path, query, frag)
    ensures ParseSpec(Before(schema, s) + Suffix(path, query, frag), false)
         == var u := UrlFields(schema, s, path, query, frag);
            if s.port == "" then Result(true, u, 0)
            else if Decimal(s.port) > 0xFFFF then Result(false, u, 0)
            else Result(true, u, Decimal(s.port))
  {
    hide StateAfter, HasAt, SuffixOk, Suffix, Collect, HostOk, HostPart, Decimal, SuffixFields, PutAt, UrlFields,
      Before, Authority, Labels, HostFrom, ServerFields;
    var u := Before(schema, s) + Suffix(path, query, frag);
    var off, n := |schema| + 3, |Authority(s)|;
    SuffixFieldsConcat(schema, s, path, query, frag);
    SplitFields(schema, s, path, query, frag);
    PrintedHasAt(schema, s, path, query, frag);
    HostSlice(schema, s, Suffix(path, query, frag));
    HostRead(u, off, s);
    FieldsHavePort(schema, s, path, query, frag);
    FieldsSplit(schema, s, path, query, frag);
  }

  /** The server's own fields take the place of the host. */
  lemma FieldsSplit(schema: string, s: Server, path: string, query: string, frag: string)
    requires s.host != ""
    ensures UrlFields(schema, s, path, query, frag) == Replaced(schema, s, path, query, frag)
  {
    hide SuffixFields, ServerFields, Authority;
    var off := |schema| + 3;
    var n := |Authority(s)|;
    var q := ServerFields(off, s);
    SplitFields(schema, s, path, query, frag);
    HostInFields(off, s);
    var u := SuffixFields(map[Schema := Range(0, |schema|), Host := Range(off, n)], off + n, path, query, frag);
    HostGivesWay(u, q, Range(off, 0));
  }

  lemma HostGivesWay(u: map<UrlField, Range>, q: map<UrlField, Range>, r: Range)
    requires Host in q
    ensures u[Host := r] + q == (u - {Host}) + q
  {
  }

  lemma HostInFields(off: nat, s: Server)
    requires s.host != ""
    ensures Host in ServerFields(off, s)
  {
    hide Authority, HostFrom;
    PortShort(s);
  }

  ghost function Replaced(schema: string, s: Server, path: string, query: string, frag: string): map<UrlField, Range> {
    var off := |schema| + 3;
    var n := |Authority(s)|;
    var u := SuffixFields(map[Schema := Range(0, |schema|), Host := Range(off, n)], off + n, path, query, frag);
    u[Host := Range(off, 0)] + ServerFields(off, s)
  }
}
