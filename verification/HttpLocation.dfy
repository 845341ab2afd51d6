/** Following a redirect: from the Location header to the next request. */
module HttpLocation {
  import opened HttpHead
  import opened HttpUrl
  import opened HttpUrlPrint
  import opened HttpCollect
  import opened HttpCollectorObject

  const REQUEST_PREFIX: string := "/webhdfs/v1"

  predicate StartsWith(s: string, prefix: string) { |prefix| <= |s| && s[..|prefix|] == prefix }

  function Unprefixed(path: string): string {
    if StartsWith(path, REQUEST_PREFIX) then path[|REQUEST_PREFIX|..] else path
  }

  function Slice(buf: string, r: Range): string
    requires End(r) <= |buf|
  {
    buf[r.off..End(r)]
  }

  datatype Peer = Peer(host: string, port: string, path: string)

  /** Takes the next host, port and path from a redirect. Whether the url was well-formed is not asked, only
      which fields were found; without a path the host and port are changed all the same. */
  method SetLocation(uri: string, was: Peer) returns (ok: bool, now: Peer)
    requires ParseSpec(uri, false).Result?
    ensures var u := ParseSpec(uri, false).fields;
            && (forall f :: f in u ==> End(u[f]) <= |uri|)
            && ok == (Host in u && Path in u)
            && now == (if Host !in u then was
                       else Peer(Slice(uri, u[Host]), if Port in u then Slice(uri, u[Port]) else "80",
                                 if Path in u then Unprefixed(Slice(uri, u[Path])) else was.path))
  {
    hide ParseSpec, Unprefixed, Slice;
    forall f ensures f in ParseSpec(uri, false).fields ==> End(ParseSpec(uri, false).fields[f]) <= |uri| {
      FieldsAreExact(uri, false, f);
    }
    var r := ParseUrl(uri, false);
    var u := r.fields;
    now := was;
    if Host !in u { return false, now; }
    now := now.(host := Slice(uri, u[Host]));
    now := now.(port := if Port in u then Slice(uri, u[Port]) else "80");
    if Path !in u { return false, now; }
    now := now.(path := Unprefixed(Slice(uri, u[Path])));
    return true, now;
  }

  // ---------- the request ----------

  function HeaderText(name: string, value: string): string { name + ": " + value + "\r\n" }

  function RequestLine(path: string): string { "GET " + REQUEST_PREFIX + path + "?op=OPEN HTTP/1.1\r\n" }

  function RequestText(path: string, host: string): string {
    RequestLine(path) + HeaderText("Host", host) + HeaderText("Connection", "close") + "\r\n"
  }

  lemma ClipMore(s: string, a: string, size: nat)
    requires size > 0
    ensures Clip(Clip(s, size) + a, size) == Clip(s + a, size)
  {
    if |s| >= size { assert (s[..size - 1] + a)[..size - 1] == s[..size - 1] == (s + a)[..size - 1]; }
  }

  method Advance(buf: array<char>, n: nat, s: string, ghost before: string) returns (m: nat)
    requires n < buf.Length && buf[..n] == Clip(before, buf.Length)
    modifies buf
    ensures m < buf.Length && buf[..m] == Clip(before + s, buf.Length)
  {
    hide Clip;
    ClipMore(before, s, buf.Length);
    m := Append(buf, n, s);
  }

  method WriteHeader(buf: array<char>, n: nat, name: string, value: string, ghost before: string) returns (m: nat)
    requires n < buf.Length && buf[..n] == Clip(before, buf.Length)
    modifies buf
    ensures m < buf.Length && buf[..m] == Clip(before + HeaderText(name, value), buf.Length)
  {
    hide Clip;
    m := Advance(buf, n, name, before);
    m := Advance(buf, m, ": ", before + name);
    m := Advance(buf, m, value, before + name + ": ");
    m := Advance(buf, m, "\r\n", before + name + ": " + value);
    assert before + name + ": " + value + "\r\n" == before + HeaderText(name, value);
  }

  /** The request in the connection's buffer: the whole text, or as much of it as the buffer holds. */
  method BuildRequest(buf: array<char>, path: string, host: string) returns (n: nat)
    requires buf.Length > 0
    modifies buf
    ensures n < buf.Length && buf[..n] == Clip(RequestText(path, host), buf.Length)
  {
    hide Clip, HeaderText;
    ClipNothing(buf.Length);
    assert buf[..0] == "" && "" + RequestLine(path) == RequestLine(path);
    n := Advance(buf, 0, RequestLine(path), "");
    n := WriteHeader(buf, n, "Host", host, RequestLine(path));
    n := WriteHeader(buf, n, "Connection", "close", RequestLine(path) + HeaderText("Host", host));
    n := Advance(buf, n, "\r\n", RequestLine(path) + HeaderText("Host", host) + HeaderText("Connection", "close"));
  }

  lemma ClipNothing(size: nat)
    requires size > 0
    ensures Clip("", size) == ""
  {
  }

  // ---------- the redirect's own path ----------

  /** A redirect to a path below the prefix is followed to that very path, at its own host and port; its query
      gives way to the proxy's. It does not matter whether the port is in range. */
  lemma RedirectIsFollowed(schema: string, s: Server, path: string, query: string, frag: string)
    requires SchemaOk(schema) && ServerOk(s)
    requires SuffixOk(HttpTypes.ReqServer, REQUEST_PREFIX + path, query, frag)
    ensures var own := REQUEST_PREFIX + path;
            var uri := Before(schema, s) + Suffix(own, query, frag);
            var r := ParseSpec(uri, false);
            && r.Result? && Host in r.fields && Path in r.fields && (Port in r.fields <==> s.port != "")
            && (forall f :: f in r.fields ==> End(r.fields[f]) <= |uri|)
            && Slice(uri, r.fields[Host]) == s.host
            && (s.port != "" ==> Slice(uri, r.fields[Port]) == s.port)
            && Unprefixed(Slice(uri, r.fields[Path])) == path
            && RequestLine(Unprefixed(Slice(uri, r.fields[Path]))) == "GET " + own + "?op=OPEN HTTP/1.1\r\n"
  {
    hide ParseSpec, UrlFields, Before, Suffix, SuffixOk, Authority, Decimal, SchemaOk, HostTextOk, AllDigits, UserOk,
      HostFrom;
    var own := REQUEST_PREFIX + path;
    var rest := Suffix(own, query, frag);
    var uri := Before(schema, s) + rest;
    AbsoluteFormRead(schema, s, own, query, frag);
    HostNotEmpty(s);
    FieldsHavePort(schema, s, own, query, frag);
    HostSlice(schema, s, rest);
    PathSlice(schema, s, own, query, frag);
    forall f ensures f in ParseSpec(uri, false).fields ==> End(ParseSpec(uri, false).fields[f]) <= |uri| {
      FieldsAreExact(uri, false, f);
    }
    assert own[..|REQUEST_PREFIX|] == REQUEST_PREFIX && own[|REQUEST_PREFIX|..] == path;
    assert "GET " + REQUEST_PREFIX + path == "GET " + own;
  }

  lemma HostNotEmpty(s: Server)
    requires ServerOk(s)
    ensures s.host != ""
  {
  }

  lemma PathSlice(schema: string, s: Server, path: string, query: string, frag: string)
    ensures var u := Before(schema, s) + Suffix(path, query, frag);
            var at := |schema| + 3 + |Authority(s)|;
            at + |path| <= |u| && u[at..at + |path|] == path
  {
    hide Authority, QueryText, FragmentText;
    var b, x := Before(schema, s), Suffix(path, query, frag);
    assert x[..|path|] == path;
    assert (b + x)[|b|..|b| + |path|] == x[..|path|];
  }
}
