/** CSV as this reader understands it, on whole strings (section 2 of RFC 4180). */
module CsvSpec {

  const QUOTE: char := '"'

  function CountOf(s: string, c: char): nat {
    if s == "" then 0 else (if s[0] == c then 1 else 0) + CountOf(s[1..], c)
  }

  predicate Odd(n: nat) { n % 2 == 1 }

  lemma {:induction false} CountConcat(a: string, b: string, c: char)
    ensures CountOf(a + b, c) == CountOf(a, c) + CountOf(b, c)
    decreases |a|
  {
    if a == "" {
      assert a + b == b;
    } else {
      assert (a + b)[1..] == a[1..] + b;
      CountConcat(a[1..], b, c);
    }
  }

  /** The first `c` of `s` outside quotes, or the length of `s`; `odd` says whether a quote is open. */
  function Cut(s: string, c: char, odd: bool): (k: nat)
    ensures k <= |s|
    ensures k < |s| ==> s[k] == c
  {
    if s == "" then 0
    else if s[0] == c && !odd then 0
    else 1 + Cut(s[1..], c, if s[0] == QUOTE then !odd else odd)
  }

  /** One character of the scan. */
  lemma CutStep(s: string, c: char, odd: bool)
    requires s != ""
    ensures Cut(s, c, odd) == if s[0] == c && !odd then 0 else 1 + Cut(s[1..], c, if s[0] == QUOTE then !odd else odd)
  {
  }

  /** `Cut` is the least position of a `c` with an even number of quotes before it. */
  lemma {:induction false} CutIsFirst(s: string, c: char, odd: bool)
    requires c != QUOTE
    ensures var k := Cut(s, c, odd);
            && (k < |s| ==> Odd(CountOf(s[..k], QUOTE)) == odd)
            && forall i :: 0 <= i < k && s[i] == c ==> Odd(CountOf(s[..i], QUOTE)) != odd
    decreases |s|
  {
    hide Odd, CountOf, Cut;
    if s != "" {
      CutStep(s, c, odd);
      NoCount();
      var k := Cut(s, c, odd);
      if k > 0 {
        CutIsFirst(s[1..], c, if s[0] == QUOTE then !odd else odd);
        if k < |s| { OddAt(s, k, odd); }
        forall i | 0 <= i < k && s[i] == c ensures Odd(CountOf(s[..i], QUOTE)) != odd {
          if i > 0 { OddAt(s, i, odd); } else { assert s[..0] == ""; }
        }
      } else {
        assert s[..0] == "";
      }
    }
  }

  lemma NoCount()
    ensures !Odd(CountOf("", QUOTE))
  {
  }

  /** The parity at a place, seen from behind the first character. */
  lemma OddAt(s: string, i: nat, odd: bool)
    requires 0 < i <= |s|
    ensures (Odd(CountOf(s[1..][..i - 1], QUOTE)) == if s[0] == QUOTE then !odd else odd)
            <==> (Odd(CountOf(s[..i], QUOTE)) == odd)
  {
    hide CountOf;
    CountHead(s, i);
  }

  lemma CountHead(s: string, i: nat)
    requires 0 < i <= |s|
    ensures CountOf(s[..i], QUOTE) == (if s[0] == QUOTE then 1 else 0) + CountOf(s[1..][..i - 1], QUOTE)
  {
    assert s[..i][1..] == s[1..][..i - 1];
  }

  lemma OddNext(n: nat)
    ensures Odd(n + 1) == !Odd(n)
  {
  }

  lemma OddHead(a: string, odd: bool)
    requires a != ""
    ensures ((if a[0] == QUOTE then !odd else odd) != Odd(CountOf(a[1..], QUOTE))) == (odd != Odd(CountOf(a, QUOTE)))
  {
    hide Odd;
    OddNext(CountOf(a[1..], QUOTE));
  }

  /** Looking on in a longer string. */
  lemma {:induction false} CutConcat(a: string, b: string, c: char, odd: bool)
    requires c != QUOTE
    ensures Cut(a + b, c, odd)
         == if Cut(a, c, odd) < |a| then Cut(a, c, odd) else |a| + Cut(b, c, odd != Odd(CountOf(a, QUOTE)))
    decreases |a|
  {
    hide CountOf, Odd, Cut;
    if a == "" {
      assert a + b == b;
      NoCount();
    } else {
      assert (a + b)[1..] == a[1..] + b && (a + b)[0] == a[0];
      CutStep(a, c, odd);
      CutStep(a + b, c, odd);
      if !(a[0] == c && !odd) {
        OddHead(a, odd);
        CutConcat(a[1..], b, c, if a[0] == QUOTE then !odd else odd);
      }
    }
  }

  /** A string without `c`. */
  lemma {:induction false} CutNone(s: string, c: char, odd: bool)
    requires forall i :: 0 <= i < |s| ==> s[i] != c
    ensures Cut(s, c, odd) == |s|
    decreases |s|
  {
    if s != "" { CutNone(s[1..], c, if s[0] == QUOTE then !odd else odd); }
  }

  lemma OddSum(m: nat, n: nat)
    ensures Odd(m + n) == (Odd(m) != Odd(n))
  {
  }

  /** One step of a scan that jumps from one `c` to the next and counts the quotes it jumps over. */
  lemma CutJump(s: string, e: nat, c: char, odd: bool)
    requires c != QUOTE && e < |s| && s[e] == c && forall i :: 0 <= i < e ==> s[i] != c
    ensures Cut(s, c, odd)
         == if odd == Odd(CountOf(s[..e], QUOTE)) then e else e + 1 + Cut(s[e + 1..], c, true)
  {
    hide Odd, CountOf;
    assert s == s[..e] + s[e..];
    CutNone(s[..e], c, odd);
    CutConcat(s[..e], s[e..], c, odd);
    assert s[e..][1..] == s[e + 1..];
  }

  // ---------- records ----------

  function LineEnd(s: string): nat { Cut(s, '\n', false) }

  /** Where the text of a record ends whose line ends at `k`: before a carriage return if a line feed follows it. */
  function StripAt(s: string, k: nat): (r: nat)
    requires k <= |s|
    ensures r <= k
  {
    if 0 < k < |s| && s[k - 1] == '\r' then k - 1 else k
  }

  /** The text of the first record: up to its line feed, less a carriage return before that. */
  function Record(s: string): string { s[..StripAt(s, LineEnd(s))] }

  function AfterRecord(s: string): string {
    var k := LineEnd(s);
    if k < |s| then s[k + 1..] else ""
  }

  function Records(s: string): seq<string>
    decreases |s|
  {
    if s == "" then [] else [Record(s)] + Records(AfterRecord(s))
  }

  // ---------- fields ----------

  /** Doubled quotes become single ones. */
  function Collapse(s: string): string {
    if |s| < 2 then s
    else if s[0] == QUOTE && s[1] == QUOTE then [QUOTE] + Collapse(s[2..])
    else [s[0]] + Collapse(s[1..])
  }

  /** The position of the first `c`, or the length. */
  function First(s: string, c: char): (k: nat)
    ensures k <= |s|
    ensures k < |s| ==> s[k] == c
    ensures forall i :: 0 <= i < k ==> s[i] != c
  {
    if s == "" || s[0] == c then 0 else 1 + First(s[1..], c)
  }

  /** The position of the last quote behind `from`, or `from`. */
  function LastQuote(s: string, from: nat): (k: nat)
    requires from < |s|
    ensures from <= k < |s|
    ensures k > from ==> s[k] == QUOTE
    ensures forall i :: k < i < |s| ==> s[i] != QUOTE
    decreases |s|
  {
    if |s| - 1 == from || s[|s| - 1] == QUOTE then |s| - 1
    else
      var k := LastQuote(s[..|s| - 1], from);
      k
  }

  /** The text of a field: what stands between its first and its last quote, if it has one. */
  function Trimmed(s: string, replace: bool): string {
    var i := First(s, QUOTE);
    if i == |s| then s
    else
      var from := if i + 1 < |s| then i + 1 else i;
      var text := s[from..LastQuote(s, from)];
      if replace then Collapse(text) else text
  }

  /** The fields of a record from its text on; `empty` says that an empty field is still owed. */
  function Fields(s: string, empty: bool, replace: bool): seq<string>
    decreases |s|
  {
    var k := Cut(s, ',', false);
    if k < |s| then [Trimmed(s[..k], replace)] + Fields(s[k + 1..], empty, replace)
    else if s != "" && s[|s| - 1] != ',' then [Trimmed(s, replace)] + (if empty then [""] else [])
    else if empty then [""] else []
  }

  /** An empty record has one empty field, and so has the place behind a trailing comma. */
  predicate OwesEmpty(s: string) { s == "" || s[|s| - 1] == ',' }

  function RecordFields(s: string, replace: bool): seq<string> { Fields(s, OwesEmpty(s), replace) }

  function Table(s: string, replace: bool): seq<seq<string>> {
    var rs := Records(s);
    seq(|rs|, i requires 0 <= i < |rs| => RecordFields(rs[i], replace))
  }

  // ---------- fields against a plain split ----------

  /** The record cut at every comma outside quotes, with nothing said about empty or trailing fields. */
  function Split(s: string): (r: seq<string>)
    ensures r != []
    decreases |s|
  {
    var k := Cut(s, ',', false);
    if k < |s| then [s[..k]] + Split(s[k + 1..]) else [s]
  }

  function TrimAll(segments: seq<string>, replace: bool): (r: seq<string>)
    ensures |r| == |segments|
  {
    if segments == [] then [] else [Trimmed(segments[0], replace)] + TrimAll(segments[1..], replace)
  }

  /** What stands behind the last comma outside quotes. */
  function Tail(s: string): string { Split(s)[|Split(s)| - 1] }

  /** A comma at the very end inside an open quote. */
  predicate EndsInQuotedComma(s: string) { s != "" && s[|s| - 1] == ',' && Odd(CountOf(s, QUOTE)) }

  lemma SplitStep(s: string)
    ensures var k := Cut(s, ',', false);
            Split(s) == if k < |s| then [s[..k]] + Split(s[k + 1..]) else [s]
  {
    hide Cut;
  }

  lemma TailStep(s: string)
    requires Cut(s, ',', false) < |s|
    ensures var rest := s[Cut(s, ',', false) + 1..];
            && Tail(s) == Tail(rest) && OwesEmpty(s) == OwesEmpty(rest)
            && EndsInQuotedComma(s) == EndsInQuotedComma(rest)
  {
    hide CountOf, Odd, Cut, Split;
    var k := Cut(s, ',', false);
    var rest := s[k + 1..];
    SplitStep(s);
    CutIsFirst(s, ',', false);
    EvenFront(s, k);
    if rest == "" { NoCount(); }
  }

  lemma EvenFront(s: string, k: nat)
    requires k < |s| && s[k] == ',' && !Odd(CountOf(s[..k], QUOTE))
    ensures Odd(CountOf(s, QUOTE)) == Odd(CountOf(s[k + 1..], QUOTE))
  {
    hide CountOf, Odd;
    var rest := s[k + 1..];
    assert s == s[..k] + ([','] + rest);
    CountConcat(s[..k], [','] + rest, QUOTE);
    CountConcat([','], rest, QUOTE);
    CommaCount();
    OddSum(CountOf(s[..k], QUOTE), CountOf(rest, QUOTE));
  }

  lemma CommaCount()
    ensures CountOf([','], QUOTE) == 0
  {
    assert [','][1..] == "";
  }

  /** The tail of a record ends in a comma exactly if the record does so inside an open quote. */
  lemma {:induction false} TailIsLast(s: string)
    ensures Cut(Tail(s), ',', false) == |Tail(s)|
    ensures EndsInQuotedComma(s) <==> Tail(s) != "" && Tail(s)[|Tail(s)| - 1] == ','
    decreases |s|
  {
    hide Trimmed, CountOf, Odd;
    var k := Cut(s, ',', false);
    if k < |s| {
      TailStep(s);
      TailIsLast(s[k + 1..]);
    } else {
      assert Split(s) == [s];
      if s != "" && s[|s| - 1] == ',' {
        CutIsFirst(s, ',', false);
        var front := s[..|s| - 1];
        assert s == front + [','];
        CountConcat(front, [','], QUOTE);
        CommaCount();
      }
    }
  }

  /** The segments, trimmed; `lost` says that an empty field stands for the last one. */
  function Presented(segments: seq<string>, lost: bool, replace: bool): seq<string>
    requires segments != []
  {
    if lost then TrimAll(segments[..|segments| - 1], replace) + [""] else TrimAll(segments, replace)
  }

  /** The fields of a record are its segments, trimmed, but for one case: a record that ends in a comma
      inside an open quote gets an empty last field whatever its tail holds. */
  lemma {:induction false} FieldsAreSegments(s: string, replace: bool)
    ensures RecordFields(s, replace) == Presented(Split(s), EndsInQuotedComma(s), replace)
    decreases |s|
  {
    hide Cut, Split, RecordFields, EndsInQuotedComma, Presented, OwesEmpty;
    SplitStep(s);
    var k := Cut(s, ',', false);
    if k < |s| {
      RecordCut(s, replace);
      FieldsAreSegments(s[k + 1..], replace);
      PresentedFirst(s[..k], Split(s[k + 1..]), EndsInQuotedComma(s), replace);
    } else {
      OneSegment(s, replace);
    }
  }

  lemma OneSegment(s: string, replace: bool)
    requires Cut(s, ',', false) == |s|
    ensures RecordFields(s, replace) == Presented([s], EndsInQuotedComma(s), replace)
  {
    hide Cut, CountOf, Odd, Trimmed, EndsInQuotedComma, OwesEmpty, RecordFields;
    assert [s][..0] == [];
    LastSegment(s, replace);
  }

  lemma PresentedFirst(f: string, rest: seq<string>, lost: bool, replace: bool)
    requires rest != []
    ensures Presented([f] + rest, lost, replace) == [Trimmed(f, replace)] + Presented(rest, lost, replace)
  {
    hide Trimmed, TrimAll;
    TrimFirst(f, rest, replace);
    var x := TrimAll(rest[..|rest| - 1], replace);
    assert [Trimmed(f, replace)] + (x + [""]) == [Trimmed(f, replace)] + x + [""];
  }

  lemma RecordCut(s: string, replace: bool)
    requires Cut(s, ',', false) < |s|
    ensures var k := Cut(s, ',', false);
            && RecordFields(s, replace) == [Trimmed(s[..k], replace)] + RecordFields(s[k + 1..], replace)
            && EndsInQuotedComma(s) == EndsInQuotedComma(s[k + 1..])
  {
    hide Trimmed, Fields, Cut, EndsInQuotedComma;
    TailStep(s);
    FieldCut(s, OwesEmpty(s), replace);
  }

  lemma TrimFirst(f: string, rest: seq<string>, replace: bool)
    requires rest != []
    ensures var segments := [f] + rest;
            && TrimAll(segments, replace) == [Trimmed(f, replace)] + TrimAll(rest, replace)
            && TrimAll(segments[..|segments| - 1], replace)
               == [Trimmed(f, replace)] + TrimAll(rest[..|rest| - 1], replace)
  {
    hide Trimmed;
    var segments := [f] + rest;
    assert segments[1..] == rest;
    assert segments[..|segments| - 1][1..] == rest[..|rest| - 1];
  }

  lemma LastSegment(s: string, replace: bool)
    requires Cut(s, ',', false) == |s|
    ensures RecordFields(s, replace) == if EndsInQuotedComma(s) then [""] else [Trimmed(s, replace)]
    ensures TrimAll([s], replace) == [Trimmed(s, replace)] && TrimAll([], replace) == []
  {
    hide CountOf, Odd, EndsInQuotedComma;
    TailIsLast(s);
    assert Tail(s) == s;
    if s == "" { assert Trimmed(s, replace) == ""; }
    assert TrimAll([s], replace) == [Trimmed(s, replace)] + TrimAll([], replace);
  }

  /** So a record is split and trimmed and nothing else exactly if no text is lost that way. */
  lemma FieldsExactly(s: string, replace: bool)
    ensures RecordFields(s, replace) == TrimAll(Split(s), replace)
       <==> !(EndsInQuotedComma(s) && Trimmed(Tail(s), replace) != "")
  {
    hide Trimmed, EndsInQuotedComma, RecordFields, Split, TrimAll;
    var segments := Split(s);
    var n := |segments| - 1;
    FieldsAreSegments(s, replace);
    TrimLast(segments, replace);
    var x, last := TrimAll(segments[..n], replace), Trimmed(segments[n], replace);
    assert (x + [""])[n] == "" && (x + [last])[n] == last;
  }

  lemma {:induction false} TrimLast(segments: seq<string>, replace: bool)
    requires segments != []
    ensures var n := |segments| - 1;
            TrimAll(segments, replace) == TrimAll(segments[..n], replace) + [Trimmed(segments[n], replace)]
    decreases |segments|
  {
    hide Trimmed;
    var n := |segments| - 1;
    if n > 0 {
      TrimLast(segments[1..], replace);
      assert segments[..n][1..] == segments[1..][..n - 1];
    }
  }

  const LOSSY: string := "x\"b\"c\"d,"

  lemma LossyText()
    ensures Trimmed(LOSSY, true) == "b\"c"
  {
    var s := LOSSY;
    assert First(s, QUOTE) == 1;
    assert s[5] == QUOTE && LastQuote(s, 2) == 5;
    assert s[2..5] == "b\"c";
    assert Collapse("\"c") == "\"" + Collapse("c") by { assert "\"c"[1..] == "c"; }
    assert Collapse("b\"c") == "b" + Collapse("\"c") by { assert "b\"c"[1..] == "\"c"; }
  }

  /** Three quotes and a trailing comma: what stands between them is lost. */
  lemma LostField()
    ensures Split(LOSSY) == [LOSSY] && TrimAll(Split(LOSSY), true) == ["b\"c"] && RecordFields(LOSSY, true) == [""]
  {
    hide Trimmed;
    var s := LOSSY;
    assert s[..7] == "x\"b\"c\"d" && CountOf("x\"b\"c\"d", QUOTE) == 3;
    CutJump(s, 7, ',', false);
    LossyText();
  }

  // ---------- printing ----------

  function Double(s: string): string {
    if s == "" then "" else (if s[0] == QUOTE then [QUOTE, QUOTE] else [s[0]]) + Double(s[1..])
  }

  function Quoted(f: string): string { [QUOTE] + Double(f) + [QUOTE] }

  function PrintFields(row: seq<string>): string
    requires row != []
  {
    if |row| == 1 then Quoted(row[0]) else Quoted(row[0]) + "," + PrintFields(row[1..])
  }

  predicate IsTable(rows: seq<seq<string>>) { forall i :: 0 <= i < |rows| ==> rows[i] != [] }

  function Print(rows: seq<seq<string>>): string
    requires IsTable(rows)
  {
    if rows == [] then "" else PrintFields(rows[0]) + "\r\n" + Print(rows[1..])
  }

  // ---------- printing is undone by reading ----------

  lemma {:induction false} CollapseDouble(f: string)
    ensures Collapse(Double(f)) == f
    decreases |f|
  {
    if f != "" {
      CollapseDouble(f[1..]);
      var d := Double(f);
      if f[0] == QUOTE {
        assert d[2..] == Double(f[1..]);
      } else {
        assert d[1..] == Double(f[1..]);
        if |d| < 2 { assert f == [f[0]]; }
      }
    }
  }

  /** Inside the quotes of a printed field nothing is cut, and the quotes there are even. */
  lemma {:induction false} DoubleHides(f: string, c: char)
    requires c != QUOTE
    ensures Cut(Double(f), c, true) == |Double(f)| && !Odd(CountOf(Double(f), QUOTE))
    decreases |f|
  {
    if f != "" {
      DoubleHides(f[1..], c);
      var d := Double(f);
      if f[0] == QUOTE {
        assert d[1..][1..] == Double(f[1..]);
        assert CountOf(d, QUOTE) == 1 + CountOf(d[1..], QUOTE) == 2 + CountOf(Double(f[1..]), QUOTE);
      } else {
        assert d[1..] == Double(f[1..]);
      }
    }
  }

  lemma QuotedHides(f: string, c: char)
    requires c != QUOTE
    ensures Cut(Quoted(f), c, false) == |Quoted(f)| && !Odd(CountOf(Quoted(f), QUOTE))
  {
    var d := Double(f);
    DoubleHides(f, c);
    CutConcat(d, [QUOTE], c, true);
    assert Cut([QUOTE], c, false) == 1 by { assert [QUOTE][1..] == ""; }
    assert Cut([QUOTE], c, true) == 1 by { assert [QUOTE][1..] == ""; }
    assert Quoted(f)[1..] == d + [QUOTE];
    CountConcat(d, [QUOTE], QUOTE);
    assert CountOf([QUOTE], QUOTE) == 1;
  }

  lemma TrimQuoted(f: string)
    ensures Trimmed(Quoted(f), true) == f
  {
    var s := Quoted(f);
    CollapseDouble(f);
    assert First(s, QUOTE) == 0;
    assert LastQuote(s, 1) == |s| - 1;
    assert s[1..|s| - 1] == Double(f);
  }

  lemma {:induction false} PrintedHides(row: seq<string>, c: char)
    requires row != [] && c != QUOTE && c != ','
    ensures Cut(PrintFields(row), c, false) == |PrintFields(row)| && !Odd(CountOf(PrintFields(row), QUOTE))
    decreases |row|
  {
    QuotedHides(row[0], c);
    if |row| > 1 {
      PrintedHides(row[1..], c);
      var rest := PrintFields(row[1..]);
      assert ("," + rest)[1..] == rest;
      assert PrintFields(row) == Quoted(row[0]) + ("," + rest);
      CutConcat(Quoted(row[0]), "," + rest, c, false);
      CountConcat(Quoted(row[0]), "," + rest, QUOTE);
    }
  }

  lemma FieldLast(s: string, empty: bool, replace: bool)
    requires Cut(s, ',', false) == |s| && s != "" && s[|s| - 1] != ','
    ensures Fields(s, empty, replace) == [Trimmed(s, replace)] + Fields("", empty, replace)
  {
    hide Trimmed;
  }

  lemma FieldOwed(s: string, empty: bool, replace: bool)
    requires Cut(s, ',', false) == |s| && (s == "" || s[|s| - 1] == ',')
    ensures Fields(s, empty, replace) == if empty then [""] else []
    ensures Fields(s, false, replace) == []
  {
    hide Trimmed;
  }

  lemma FieldCut(s: string, empty: bool, replace: bool)
    requires Cut(s, ',', false) < |s|
    ensures var k := Cut(s, ',', false);
            Fields(s, empty, replace) == [Trimmed(s[..k], replace)] + Fields(s[k + 1..], empty, replace)
  {
    hide Trimmed;
  }

  /** A printed field in front of others. */
  lemma QuotedCut(q: string, rest: string)
    requires Cut(q, ',', false) == |q| && !Odd(CountOf(q, QUOTE))
    ensures var s := q + "," + rest; Cut(s, ',', false) == |q| && s[..|q|] == q && s[|q| + 1..] == rest
  {
    hide CountOf;
    assert q + "," + rest == q + ("," + rest);
    CutConcat(q, "," + rest, ',', false);
    CommaCut(rest);
  }

  lemma CommaCut(rest: string)
    ensures Cut("," + rest, ',', false) == 0
  {
  }

  lemma NoFields(replace: bool)
    ensures Fields("", false, replace) == []
  {
  }

  lemma QuotedEnds(f: string)
    ensures Quoted(f) != "" && Quoted(f)[|Quoted(f)| - 1] == QUOTE
  {
  }

  lemma {:induction false} FieldsOfPrinted(row: seq<string>)
    requires row != []
    ensures PrintFields(row) != "" && PrintFields(row)[|PrintFields(row)| - 1] == QUOTE
    ensures Fields(PrintFields(row), false, true) == row
    decreases |row|
  {
    hide Cut, CountOf, Odd, Fields, Trimmed, Quoted;
    var q := Quoted(row[0]);
    QuotedHides(row[0], ',');
    TrimQuoted(row[0]);
    QuotedEnds(row[0]);
    if |row| == 1 {
      FieldLast(q, false, true);
      NoFields(true);
      assert row == [row[0]];
    } else {
      var rest := PrintFields(row[1..]);
      FieldsOfPrinted(row[1..]);
      QuotedCut(q, rest);
      FieldCut(q + "," + rest, false, true);
      assert [row[0]] + row[1..] == row;
    }
  }

  /** A printed row is the first record of any text it begins. */
  lemma PrintedRecord(line: string, rest: string)
    requires Cut(line, '\n', false) == |line| && !Odd(CountOf(line, QUOTE))
    ensures var s := line + "\r\n" + rest; Record(s) == line && AfterRecord(s) == rest
  {
    hide CountOf;
    var s := line + "\r\n" + rest;
    var end := "\r\n" + rest;
    assert s == line + end;
    CutConcat(line, end, '\n', false);
    assert Cut(end, '\n', false) == 1 by { assert end[1..][0] == '\n'; }
    assert s[|line|] == '\r' && s[..|line|] == line;
    assert s[|line| + 2..] == rest;
  }

  /** The table of a text is the row of its first record and the table of what follows. */
  lemma TableStep(s: string, replace: bool)
    requires s != ""
    ensures Table(s, replace) == [RecordFields(Record(s), replace)] + Table(AfterRecord(s), replace)
  {
    hide RecordFields, Record;
    assert Records(s) == [Record(s)] + Records(AfterRecord(s));
  }

  lemma EmptyTable(replace: bool)
    ensures Table("", replace) == []
  {
  }

  /** A table printed with every field quoted, quotes doubled, commas between and CRLF behind is read
      back as it was: any bytes in the fields, any number of rows and fields. */
  lemma {:induction false} PrintedIsRead(rows: seq<seq<string>>)
    requires IsTable(rows)
    ensures Table(Print(rows), true) == rows
    decreases |rows|
  {
    hide CountOf, Cut, Fields, PrintFields, Record, AfterRecord, Table;
    if rows == [] {
      EmptyTable(true);
    } else {
      var line := PrintFields(rows[0]);
      FieldsOfPrinted(rows[0]);
      PrintedHides(rows[0], '\n');
      PrintedRecord(line, Print(rows[1..]));
      TableStep(Print(rows), true);
      PrintedIsRead(rows[1..]);
      assert [rows[0]] + rows[1..] == rows;
    }
  }
}
