/** The head of a message: Content-Length, whole header lines, the status line, the blank line that
    ends it and the body framing it decides on (section 4.4 of RFC 2616). */
module HttpHead {
  import opened Bytes
  import opened HttpTypes
  import opened HttpSwitch
  import opened HttpStep
  import opened HttpHeaders
  import opened HttpValues

  // ---------- Content-Length ----------

  predicate AllDigits(s: string) { forall i :: 0 <= i < |s| ==> IsNum(s[i]) }

  /** The number a string of decimal digits denotes. */
  function Decimal(s: string): nat
    requires AllDigits(s)
    decreases |s|
  {
    if s == "" then 0 else Decimal(s[..|s| - 1]) * 10 + DigitVal(s[|s| - 1])
  }

  lemma DecimalSnoc(s: string, c: char)
    requires AllDigits(s) && IsNum(c)
    ensures AllDigits(s + [c]) && Decimal(s + [c]) == Decimal(s) * 10 + DigitVal(c)
  {
    assert (s + [c])[..|s|] == s;
  }

  lemma {:induction false} DecimalGrows(s: string, more: string)
    requires AllDigits(s) && AllDigits(more)
    ensures AllDigits(s + more) && Decimal(s) <= Decimal(s + more)
    decreases |more|
  {
    if more == "" {
      assert s + more == s;
    } else {
      DecimalSnoc(s, more[0]);
      DecimalGrows(s + [more[0]], more[1..]);
      assert s + [more[0]] + more[1..] == s + more;
    }
  }

  /** A length as the parser reads it: digits, and blanks that do not count. */
  predicate DigitsAndBlanks(s: string) { forall i :: 0 <= i < |s| ==> IsNum(s[i]) || s[i] == ' ' }

  function Spaced(s: string): nat
    requires DigitsAndBlanks(s)
    decreases |s|
  {
    if s == "" then 0
    else if s[|s| - 1] == ' ' then Spaced(s[..|s| - 1])
    else Spaced(s[..|s| - 1]) * 10 + DigitVal(s[|s| - 1])
  }

  /** Without blanks that is the decimal number. */
  lemma {:induction false} SpacedIsDecimal(s: string)
    requires AllDigits(s)
    ensures DigitsAndBlanks(s) && Spaced(s) == Decimal(s)
    decreases |s|
  {
    if s != "" { SpacedIsDecimal(s[..|s| - 1]); }
  }

  predicate IsLength(s: string) { s != "" && IsNum(s[0]) && DigitsAndBlanks(s) }

  lemma SpacedSnoc(s: string, c: char)
    requires DigitsAndBlanks(s) && (IsNum(c) || c == ' ')
    ensures DigitsAndBlanks(s + [c])
    ensures Spaced(s + [c]) == if c == ' ' then Spaced(s) else Spaced(s) * 10 + DigitVal(c)
  {
    assert (s + [c])[..|s|] == s;
  }

  lemma {:induction false} SpacedGrows(s: string, more: string)
    requires DigitsAndBlanks(s) && DigitsAndBlanks(more)
    ensures DigitsAndBlanks(s + more) && Spaced(s) <= Spaced(s + more)
    decreases |more|
  {
    if more == "" {
      assert s + more == s;
    } else {
      SpacedSnoc(s, more[0]);
      SpacedGrows(s + [more[0]], more[1..]);
      assert s + [more[0]] + more[1..] == s + more;
    }
  }

  lemma ModUnique(x: nat, m: nat, q: int, r: int)
    requires m > 0 && x == m * q + r && 0 <= r < m
    ensures x % m == r
  {
    var d := q - x / m;
    assert m * d == x % m - r;
    assert d >= 1 ==> m * d >= m;
    assert d <= -1 ==> m * d <= 0 - m;
  }

  lemma ModStep(n: nat, base: nat, digit: nat, m: nat)
    requires m > 0
    ensures ((n % m) * base + digit) % m == (n * base + digit) % m
  {
    var q, r := n / m, n % m;
    var x := r * base + digit;
    var q2 := x / m;
    calc {
      n * base + digit;
      { assert n == m * q + r; }
      (m * q + r) * base + digit;
      m * (q * base) + x;
      m * (q * base) + (m * q2 + x % m);
      m * (q * base + q2) + x % m;
    }
    ModUnique(n * base + digit, m, q * base + q2, x % m);
  }

  lemma WrappedIsModular(n: nat, base: nat, digit: nat)
    ensures Wrapped(Mod64(n), base, digit) == Mod64(n * base + digit)
    ensures n < TWO_TO_64 ==> Mod64(n) == n
  {
    ModStep(n, base, digit, TWO_TO_64);
  }

  /** More of a length: the parser holds the number modulo 2^64, and raises no error while the
      number stays below 2^64 - 1. */
  lemma {:induction false} LengthRun(c: Config, read: string, digits: string)
    requires !c.left && Room(c.p, |digits|) && c.p.state.HeaderValue? && c.p.headerState.IsContentLength?
    requires DigitsAndBlanks(read) && DigitsAndBlanks(digits) && c.p.contentLength == Mod64(Spaced(read))
    requires Spaced(read) != ULLONG_MAX
    ensures DigitsAndBlanks(read + digits)
    ensures var d := Feed(c, digits);
            && !d.left
            && (Spaced(read + digits) < ULLONG_MAX ==> d.p.errno.Ok?)
            && (d.p.errno.Ok? && digits != "" ==>
                  && d.p == c.p.(nread := c.p.nread + |digits|, contentLength := Mod64(Spaced(read + digits)))
                  && d.t == Push(c.t, Data(Value, digits))
                  && Spaced(read + digits) != ULLONG_MAX)
    decreases |digits|
  {
    hide Step, Push, Mod64, Spaced, Wrapped, DigitsAndBlanks;
    DigitsSplit(digits);
    if digits == "" {
      assert read + digits == read;
    } else {
      var ch := digits[0];
      SpacedSnoc(read, ch);
      SpacedGrows(read + [ch], digits[1..]);
      assert read + [ch] + digits[1..] == read + digits;
      LengthOne(c, read, ch);
      var d := After(c, ch);
      if d.p.errno.Ok? {
        LengthRun(d, read + [ch], digits[1..]);
        PushPush(c.t, Value, [ch], digits[1..]);
        assert [ch] + digits[1..] == digits;
        if |digits| == 1 { assert digits[1..] == "" && digits == [ch] && Feed(d, digits[1..]) == d; }
      } else {
        assert Feed(d, digits[1..]) == d;
      }
    }
  }

  /** One character more of it. */
  lemma LengthOne(c: Config, read: string, ch: char)
    requires !c.left && Room(c.p, 1) && c.p.state.HeaderValue? && c.p.headerState.IsContentLength?
             && (IsNum(ch) || ch == ' ')
    requires DigitsAndBlanks(read) && c.p.contentLength == Mod64(Spaced(read)) && Spaced(read) != ULLONG_MAX
    requires DigitsAndBlanks(read + [ch])
    requires Spaced(read + [ch]) == if ch == ' ' then Spaced(read) else Spaced(read) * 10 + DigitVal(ch)
    ensures var d := After(c, ch);
            && !d.left
            && (Spaced(read + [ch]) < ULLONG_MAX ==> d.p.errno.Ok?)
            && (d.p.errno.Ok? ==>
                  && d == Config(c.p.(nread := c.p.nread + 1, contentLength := Mod64(Spaced(read + [ch]))),
                                 Push(c.t, Data(Value, [ch])), false)
                  && Spaced(read + [ch]) != ULLONG_MAX)
  {
    hide Step, Push, Mod64, Spaced, Wrapped, DigitsAndBlanks;
    Absorb1(c.t, Data(Value, [ch]));
    if ch == ' ' {
      LengthBlank(c.p);
    } else {
      WrappedIsModular(Spaced(read), 10, DigitVal(ch));
      WrappedIsModular(Spaced(read + [ch]), 10, 0);
      LengthStep(c.p, ch);
      OverflowSeen(Spaced(read), DigitVal(ch), Spaced(read + [ch]));
    }
  }

  lemma DigitsSplit(digits: string)
    requires DigitsAndBlanks(digits)
    ensures digits != "" ==> (IsNum(digits[0]) || digits[0] == ' ') && DigitsAndBlanks(digits[1..])
  {
  }

  /** Below 2^64 - 1 nothing wraps, so the test does not fire. */
  lemma OverflowSeen(n: nat, digit: nat, next: nat)
    requires digit < 10 && next == n * 10 + digit
    ensures next < ULLONG_MAX ==> Mod64(n) == n && Mod64(next) == next && next >= n
    ensures Mod64(next) != ULLONG_MAX ==> next != ULLONG_MAX
  {
  }

  lemma LengthStep(p: Parser, c: char)
    requires Room(p, 1) && p.state.HeaderValue? && p.headerState.IsContentLength? && IsNum(c)
    ensures var t := Wrapped(p.contentLength, 10, DigitVal(c));
            var o := Step(p, c);
            if t < p.contentLength || t == ULLONG_MAX then !o.p.errno.Ok? && o.events == [] && !o.left
            else o == Outcome(p.(nread := p.nread + 1, contentLength := t), [Data(Value, [c])], false)
  {
    assert Switch(Counted(p), c) == SwitchValue(Counted(p), c);
  }

  lemma LengthBlank(p: Parser)
    requires Room(p, 1) && p.state.HeaderValue? && p.headerState.IsContentLength?
    ensures Step(p, ' ') == Outcome(p.(nread := p.nread + 1), [Data(Value, " ")], false)
  {
    assert Switch(Counted(p), ' ') == SwitchValue(Counted(p), ' ');
  }

  /** The value of a Content-Length line is taken exactly iff it is below 2^64 - 1: from there on the
      parser raises an error or, where its overflow test is blind, goes on with a wrapped length. */
  lemma LengthIsExact(c: Config, blanks: string, digits: string)
    requires !c.left && Room(c.p, |blanks| + |digits|) && c.p.state.HeaderValueStart?
             && c.p.headerState.IsContentLength?
    requires AllBlank(blanks) && IsLength(digits)
    ensures var d := Feed(c, blanks + digits);
            && (d.p.errno.Ok? && d.p.contentLength == Spaced(digits) <==> Spaced(digits) < ULLONG_MAX)
            && (d.p.errno.Ok? ==>
                  && d.p == c.p.(nread := c.p.nread + |blanks| + |digits|, state := HeaderValue, index := 0,
                                 contentLength := Mod64(Spaced(digits)))
                  && d.t == Push(c.t, Data(Value, digits)) && !d.left)
  {
    hide Step, Push, Mod64, Spaced, DigitsAndBlanks, AllBlank, Feed;
    var b := Config(c.p.(nread := c.p.nread + |blanks|), c.t, false);
    BlankRun(c, blanks);
    FeedConcat(c, blanks, digits);
    LengthRead(b, digits);
    WrappedIsModular(Spaced(digits), 10, 0);
    ModOfSmall(Spaced(digits));
  }

  /** The length itself. */
  lemma LengthRead(b: Config, digits: string)
    requires !b.left && Room(b.p, |digits|) && b.p.state.HeaderValueStart? && b.p.headerState.IsContentLength?
    requires IsLength(digits)
    ensures var d := Feed(b, digits);
            && (Spaced(digits) < ULLONG_MAX ==> d.p.errno.Ok?)
            && (d.p.errno.Ok? ==>
                  && d.p == b.p.(nread := b.p.nread + |digits|, state := HeaderValue, index := 0,
                                 contentLength := Mod64(Spaced(digits)))
                  && d.t == Push(b.t, Data(Value, digits)) && !d.left && Spaced(digits) != ULLONG_MAX)
  {
    hide Step, Push, Mod64, Spaced, DigitsAndBlanks, ValueStart, Feed;
    var ch := digits[0];
    DigitsSplit(digits);
    LengthFirst(b, ch);
    var d := After(b, ch);
    FirstDigit(ch);
    LengthRun(d, [ch], digits[1..]);
    assert [ch] + digits[1..] == digits;
    FeedRest(b, digits);
    PushPush(b.t, Value, [ch], digits[1..]);
    if |digits| == 1 { NoMoreDigits(d, digits); }
  }

  lemma ModOfSmall(n: nat)
    ensures n < TWO_TO_64 ==> Mod64(n) == n
    ensures Mod64(n) == n ==> n < TWO_TO_64
  {
  }

  lemma NoMoreDigits(d: Config, digits: string)
    requires |digits| == 1
    ensures digits == [digits[0]] && Feed(d, digits[1..]) == d
  {
  }

  lemma FirstDigit(ch: char)
    requires IsNum(ch)
    ensures DigitsAndBlanks([ch]) && Spaced([ch]) == DigitVal(ch) == Mod64(Spaced([ch])) && DigitVal(ch) < 10
  {
    SpacedSnoc("", ch);
    assert "" + [ch] == [ch];
  }

  /** The first digit of a length. */
  lemma LengthFirst(b: Config, ch: char)
    requires !b.left && Room(b.p, 1) && b.p.state.HeaderValueStart? && b.p.headerState.IsContentLength? && IsNum(ch)
    ensures After(b, ch)
         == Config(b.p.(nread := b.p.nread + 1, state := HeaderValue, index := 0, contentLength := DigitVal(ch)),
                   Push(b.t, Data(Value, [ch])), false)
  {
    hide Step, Push;
    ValueFirst(b.p, ch);
    FieldOpened(b.t, ch);
  }

  lemma ThreeZeros(s: string)
    requires AllDigits(s)
    ensures AllDigits(s + "000") && Decimal(s + "000") == Decimal(s) * 1000
  {
    hide Decimal;
    DecimalSnoc(s, '0');
    DecimalSnoc(s + ['0'], '0');
    DecimalSnoc(s + ['0'] + ['0'], '0');
    assert s + ['0'] + ['0'] + ['0'] == s + "000";
  }

  lemma DecimalOf3e18()
    ensures AllDigits("3000000000000000000") && Decimal("3000000000000000000") == 3000000000000000000
  {
    assert Decimal("3") == 3;
    hide Decimal;
    ThreeZeros("3");
    ThreeZeros("3000");
    ThreeZeros("3000000");
    ThreeZeros("3000000000");
    ThreeZeros("3000000000000");
    ThreeZeros("3000000000000000");
    assert "3" + "000" == "3000";
    assert "3000" + "000" == "3000000";
    assert "3000000" + "000" == "3000000000";
    assert "3000000000" + "000" == "3000000000000";
    assert "3000000000000" + "000" == "3000000000000000";
    assert "3000000000000000" + "000" == "3000000000000000000";
  }

  /** The overflow test does not see 30000000000000000000: it is read as 11553255926290448384. */
  lemma OverflowTestIsBlind(c: Config)
    requires !c.left && Room(c.p, 20) && c.p.state.HeaderValueStart? && c.p.headerState.IsContentLength?
    ensures var d := Feed(c, "30000000000000000000"); d.p.errno.Ok? && d.p.contentLength == 11553255926290448384
  {
    hide Step, Feed, Decimal, Spaced, AllDigits;
    DecimalOf3e18();
    SpacedIsDecimal("3000000000000000000");
    assert IsNum("3000000000000000000"[0]);
    LengthIsExact(c, "", "3000000000000000000");
    assert "" + "3000000000000000000" == "3000000000000000000";
    var d := Feed(c, "3000000000000000000");
    LengthStep(d.p, '0');
    FeedOne(d, '0');
    assert "3000000000000000000" + "0" == "30000000000000000000";
    FeedConcat(c, "3000000000000000000", "0");
  }

  // ---------- a header line ----------

  /** What a header line other than Content-Length does to the flags. */
  function LineFlags(f: Flags, name: string, value: string): Flags {
    var v := LowerAll(value);
    f.(chunked := f.chunked || (NamesEncoding(name) && IsWord(v, "chunked")),
       keepAlive := f.keepAlive || (NamesConnection(name) && IsWord(v, "keep-alive")),
       close := f.close || (NamesConnection(name) && IsWord(v, "close")),
       upgrade := f.upgrade || (NamesUpgrade(name) && value != ""))
  }

  function Header(name: string, blanks: string, value: string, end: string): string {
    name + ":" + blanks + value + end
  }

  /** The two structs agree on all that outlives a header line. */
  predicate SameButMatcher(p: Parser, q: Parser) {
    q == p.(index := q.index, headerState := q.headerState, state := q.state, nread := q.nread)
  }

  /** A header line, whatever its name and its blanks: both parts are handed over as they stand, and
      the flags change exactly as the recognised names and values say, in any letter case. */
  lemma HeaderLine(c: Config, name: string, blanks: string, value: string, end: string)
    requires !c.left && Room(c.p, |name| + 1 + |blanks| + |value| + |end|) && LineStart(c.p.state)
    requires AllTokens(name) && name != "" && AllBlank(blanks) && IsValue(value) && IsBreak(end)
    requires NamesLength(name) ==> value == ""
    ensures var d := Feed(c, Header(name, blanks, value, end));
            && d.t == Push(Push(c.t, Data(Field, name)), Data(Value, value)) && !d.left
            && LineStart(d.p.state) && d.p.nread == c.p.nread + |name| + 1 + |blanks| + |value| + |end|
            && (value != "" || end == CRLF ==> d.p.state.HeaderValueLws? && Spent(d.p.headerState))
            && SameButMatcher(c.p.(flags := LineFlags(c.p.flags, name, value)), d.p)
  {
    hide Step, Push, IsWord;
    var q := NameToColon(c, name);
    var d := Config(q, Push(c.t, Data(Field, name)), false);
    var r := ValueLine(d, blanks, value, end);
    assert Header(name, blanks, value, end) == (name + ":") + (blanks + value + end);
    FeedConcat(c, name + ":", blanks + value + end);
  }

  lemma LengthValueLine(c: Config, blanks: string, digits: string, end: string) returns (q: Parser)
    requires !c.left && Room(c.p, |blanks| + |digits| + |end|) && c.p.state.HeaderValueStart?
             && c.p.headerState.IsContentLength?
    requires AllBlank(blanks) && IsLength(digits) && Spaced(digits) < ULLONG_MAX && IsBreak(end)
    ensures Feed(c, blanks + digits + end) == Config(q, Push(c.t, Data(Value, digits)), false)
    ensures q == c.p.(nread := c.p.nread + |blanks| + |digits| + |end|, state := HeaderValueLws, index := 0,
                      contentLength := Spaced(digits))
  {
    hide Step, Push, Mod64, Spaced;
    WrappedIsModular(Spaced(digits), 10, 0);
    LengthIsExact(c, blanks, digits);
    var e := Feed(c, blanks + digits);
    LineEnd(e, end);
    FeedConcat(c, blanks + digits, end);
    q := Feed(e, end).p;
  }

  /** A Content-Length line. */
  lemma LengthLine(c: Config, name: string, blanks: string, digits: string, end: string)
    requires !c.left && Room(c.p, |name| + 1 + |blanks| + |digits| + |end|) && LineStart(c.p.state)
    requires AllTokens(name) && name != "" && NamesLength(name) && AllBlank(blanks)
    requires IsLength(digits) && Spaced(digits) < ULLONG_MAX && IsBreak(end)
    ensures var d := Feed(c, Header(name, blanks, digits, end));
            && d.t == Push(Push(c.t, Data(Field, name)), Data(Value, digits)) && !d.left
            && d.p.state.HeaderValueLws? && d.p.headerState.IsContentLength?
            && d.p.nread == c.p.nread + |name| + 1 + |blanks| + |digits| + |end|
            && SameButMatcher(c.p.(contentLength := Spaced(digits)), d.p)
  {
    hide Step, Push, Spaced, IsLength, AllBlank, AllTokens, NamesLength, Feed;
    var q := NameToColon(c, name);
    var d := Config(q, Push(c.t, Data(Field, name)), false);
    var r := LengthValueLine(d, blanks, digits, end);
    var line := Header(name, blanks, digits, end);
    assert line == (name + ":") + (blanks + digits + end);
    FeedConcat(c, name + ":", blanks + digits + end);
    assert Feed(c, line) == Config(r, Push(d.t, Data(Value, digits)), false);
  }
}
