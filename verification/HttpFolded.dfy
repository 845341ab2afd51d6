/** Values that go on on the next line (section 2.2 of RFC 2616): the parser hands the lines over joined, and
    what it makes of them depends on one line only. A flag goes by the first, a length by the last. */
module HttpFolded {
  import opened Bytes
  import opened HttpTypes
  import opened HttpSwitch
  import opened HttpStep
  import opened HttpExecute
  import opened HttpHeaders
  import opened HttpValues
  import opened HttpHead

  /** A line that goes on with the value: it begins with a blank. */
  datatype Fold = Fold(blanks: string, value: string, end: string)

  /** Behind an empty line that ends in a bare line feed the parser does not look for another one. */
  predicate FoldOk(f: Fold) {
    && f.blanks != "" && AllBlank(f.blanks) && IsValue(f.value) && IsBreak(f.end)
    && (f.value == "" ==> f.end == CRLF)
  }

  predicate FoldsOk(fs: seq<Fold>) { forall i :: 0 <= i < |fs| ==> FoldOk(fs[i]) }

  function FoldText(f: Fold): string { f.blanks + f.value + f.end }

  function FoldsText(fs: seq<Fold>): string { if fs == [] then "" else FoldText(fs[0]) + FoldsText(fs[1..]) }

  /** The lines put together, with nothing between them. */
  function Joined(fs: seq<Fold>): string { if fs == [] then "" else fs[0].value + Joined(fs[1..]) }

  lemma LwsBlank(p: Parser, c: char)
    requires Room(p, 1) && p.state.HeaderValueLws? && (c == ' ' || c == '\t')
    ensures Step(p, c) == Outcome(p.(nread := p.nread + 1, state := HeaderValueStart), [], false)
  {
    assert Switch(Counted(p), c) == SwitchHeaderEnd(Counted(p), c);
  }

  /** The blanks a line goes on with. */
  lemma FoldOpens(c: Config, blanks: string)
    requires !c.left && Room(c.p, |blanks|) && c.p.state.HeaderValueLws? && blanks != "" && AllBlank(blanks)
    ensures Feed(c, blanks) == c.(p := c.p.(nread := c.p.nread + |blanks|, state := HeaderValueStart))
  {
    hide Step;
    LwsBlank(c.p, blanks[0]);
    AbsorbNothing(c.t);
    BlankRun(After(c, blanks[0]), blanks[1..]);
  }

  // ---------- values that are no lengths ----------

  lemma FoldRead(c: Config, f: Fold) returns (q: Parser)
    requires !c.left && Room(c.p, |FoldText(f)|) && c.p.state.HeaderValueLws? && Spent(c.p.headerState) && FoldOk(f)
    ensures Feed(c, FoldText(f)) == Config(q, Push(c.t, Data(Value, f.value)), false) && Spent(q.headerState)
    ensures q == c.p.(nread := c.p.nread + |FoldText(f)|, index := q.index, headerState := q.headerState)
  {
    hide Feed, Push, IsValue, LowerAll;
    var b := Feed(c, f.blanks);
    FoldOpens(c, f.blanks);
    q := ValueLine(b, "", f.value, f.end);
    assert "" + f.value + f.end == f.value + f.end && FoldText(f) == f.blanks + (f.value + f.end);
    FeedConcat(c, f.blanks, f.value + f.end);
  }

  /** The lines a value goes on with are handed over with it and set no flag. */
  lemma {:induction false} FoldsRead(c: Config, fs: seq<Fold>) returns (q: Parser)
    requires !c.left && Room(c.p, |FoldsText(fs)|) && c.p.state.HeaderValueLws? && Spent(c.p.headerState)
    requires FoldsOk(fs)
    ensures fs != [] ==> Feed(c, FoldsText(fs)) == Config(q, Push(c.t, Data(Value, Joined(fs))), false)
    ensures fs == [] ==> q == c.p
    ensures q == c.p.(nread := c.p.nread + |FoldsText(fs)|, index := q.index, headerState := q.headerState)
    decreases |fs|
  {
    hide Feed, Push, FoldOk, FoldText, Spent;
    if fs == [] {
      q := c.p;
    } else {
      var r := FoldRead(c, fs[0]);
      var d := Config(r, Push(c.t, Data(Value, fs[0].value)), false);
      q := FoldsRead(d, fs[1..]);
      FeedConcat(c, FoldText(fs[0]), FoldsText(fs[1..]));
      PushPush(c.t, Value, fs[0].value, Joined(fs[1..]));
      if |fs| == 1 { OneFold(fs); }
    }
  }

  lemma OneFold(fs: seq<Fold>)
    requires |fs| == 1
    ensures fs[1..] == [] && FoldsText(fs) == FoldText(fs[0]) && Joined(fs) == fs[0].value
  {
    hide FoldText;
    assert fs[1..] == [];
  }

  // ---------- lengths ----------

  predicate LengthFold(f: Fold) { FoldOk(f) && IsLength(f.value) && Spaced(f.value) < ULLONG_MAX }

  predicate LengthFolds(fs: seq<Fold>) { forall i :: 0 <= i < |fs| ==> LengthFold(fs[i]) }

  lemma LengthFoldRead(c: Config, f: Fold) returns (q: Parser)
    requires !c.left && Room(c.p, |FoldText(f)|) && c.p.state.HeaderValueLws? && c.p.headerState.IsContentLength?
    requires LengthFold(f)
    ensures Feed(c, FoldText(f)) == Config(q, Push(c.t, Data(Value, f.value)), false)
    ensures q == c.p.(nread := c.p.nread + |FoldText(f)|, index := 0, contentLength := Spaced(f.value))
  {
    hide Feed, Push, IsValue, Spaced, IsLength;
    var b := Feed(c, f.blanks);
    FoldOpens(c, f.blanks);
    q := LengthValueLine(b, "", f.value, f.end);
    assert "" + f.value + f.end == f.value + f.end && FoldText(f) == f.blanks + (f.value + f.end);
    FeedConcat(c, f.blanks, f.value + f.end);
  }

  /** The lines a length goes on with: each starts the number anew. */
  lemma {:induction false} LengthFoldsRead(c: Config, fs: seq<Fold>) returns (q: Parser)
    requires !c.left && Room(c.p, |FoldsText(fs)|) && c.p.state.HeaderValueLws? && c.p.headerState.IsContentLength?
    requires LengthFolds(fs)
    ensures fs != [] ==> Feed(c, FoldsText(fs)) == Config(q, Push(c.t, Data(Value, Joined(fs))), false)
    ensures fs == [] ==> q == c.p
    ensures fs != [] ==> q == c.p.(nread := c.p.nread + |FoldsText(fs)|, index := 0,
                                   contentLength := Spaced(fs[|fs| - 1].value))
    decreases |fs|
  {
    hide Feed, Push, LengthFold, FoldText, Spaced;
    if fs == [] {
      q := c.p;
    } else {
      var r := LengthFoldRead(c, fs[0]);
      var d := Config(r, Push(c.t, Data(Value, fs[0].value)), false);
      q := LengthFoldsRead(d, fs[1..]);
      FeedConcat(c, FoldText(fs[0]), FoldsText(fs[1..]));
      PushPush(c.t, Value, fs[0].value, Joined(fs[1..]));
      if |fs| == 1 { OneFold(fs); }
    }
  }

  // ---------- what the lines mean together ----------

  lemma {:induction false} SpacedScale(a: string, b: string)
    requires DigitsAndBlanks(a) && DigitsAndBlanks(b)
    ensures DigitsAndBlanks(a + b) && Spaced(a + b) == Spaced(a) * Scale(b) + Spaced(b) && Scale(b) >= 1
    decreases |b|
  {
    if b == "" {
      assert a + b == a;
    } else {
      var n := |b| - 1;
      SpacedScale(a, b[..n]);
      assert b == b[..n] + [b[n]] && a + b == (a + b[..n]) + [b[n]];
      SpacedSnoc(a + b[..n], b[n]);
      if b[n] != ' ' { ScaleTen(Spaced(a), Scale(b[..n])); }
    }
  }

  /** What the digits of `s` shift the ones before them by. */
  function Scale(s: string): nat {
    if s == "" then 1 else if s[|s| - 1] == ' ' then Scale(s[..|s| - 1]) else 10 * Scale(s[..|s| - 1])
  }

  lemma ScaleTen(a: nat, k: nat)
    ensures a * (10 * k) == 10 * (a * k)
  {
  }

  lemma {:induction false} JoinedDigits(fs: seq<Fold>)
    requires LengthFolds(fs)
    ensures DigitsAndBlanks(Joined(fs))
    ensures fs != [] ==> Joined(fs) == Joined(fs[..|fs| - 1]) + fs[|fs| - 1].value
    decreases |fs|
  {
    hide Spaced, FoldOk;
    if fs == [] {
    } else {
      JoinedDigits(fs[1..]);
      SpacedGrows(fs[0].value, Joined(fs[1..]));
      if |fs| == 1 {
        OneFold(fs);
        assert fs[..0] == [] && "" + fs[0].value == fs[0].value;
      } else {
        var front := fs[..|fs| - 1];
        assert front[1..] == fs[1..][..|fs| - 2];
        assert fs[0].value + (Joined(fs[1..][..|fs| - 2]) + fs[|fs| - 1].value)
               == fs[0].value + Joined(fs[1..][..|fs| - 2]) + fs[|fs| - 1].value;
      }
    }
  }

  lemma FrontCounts(front: string, last: string)
    requires DigitsAndBlanks(front) && DigitsAndBlanks(last)
    ensures DigitsAndBlanks(front + last) && (Spaced(last) == Spaced(front + last) <==> Spaced(front) == 0)
  {
    hide Spaced, Scale, DigitsAndBlanks;
    SpacedScale(front, last);
    Shifted(Spaced(front), Scale(last), Spaced(last));
  }

  lemma Shifted(a: nat, k: nat, b: nat)
    requires k >= 1
    ensures b == a * k + b <==> a == 0
  {
  }

  /** A length over several lines is handed over as one number and taken for the last line's. It is the
      number exactly if all that stands before the last line is zero. */
  lemma FoldedLengthExactly(value: string, fs: seq<Fold>)
    requires IsLength(value) && LengthFolds(fs) && fs != []
    ensures var last := fs[|fs| - 1].value;
            var front := value + Joined(fs[..|fs| - 1]);
            && DigitsAndBlanks(front) && DigitsAndBlanks(front + last) && front + last == value + Joined(fs)
            && (Spaced(last) == Spaced(front + last) <==> Spaced(front) == 0)
  {
    hide Spaced, FoldOk, Joined;
    var n := |fs| - 1;
    JoinedDigits(fs);
    JoinedDigits(fs[..n]);
    SpacedGrows(value, Joined(fs[..n]));
    FrontCounts(value + Joined(fs[..n]), fs[n].value);
    assert value + Joined(fs[..n]) + fs[n].value == value + (Joined(fs[..n]) + fs[n].value);
  }

  /** A flag goes by the first line, `v`, and not by the value handed over, `v + rest`. The two agree exactly
      if no word is broken over the lines and behind a whole one there are only spaces. */
  lemma FoldedWordExactly(v: string, rest: string, word: string)
    ensures (IsWord(v, word) <==> IsWord(v + rest, word))
       <==> if |v| < |word| then !IsWord(v + rest, word)
            else IsWord(v, word) ==> forall i :: 0 <= i < |rest| ==> rest[i] == ' '
  {
    var whole := v + rest;
    assert forall i :: 0 <= i < |v| ==> whole[i] == v[i];
    assert forall i :: 0 <= i < |rest| ==> whole[|v| + i] == rest[i];
    if |word| <= |v| && Alive(v, word) {
      if forall i :: 0 <= i < |rest| ==> rest[i] == ' ' {
        assert Alive(whole, word) by {
          forall i | |v| <= i < |whole| ensures whole[i] == ' ' { assert whole[i] == rest[i - |v|]; }
        }
      }
    }
  }
}
