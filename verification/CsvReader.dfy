/** The CSV reader on its sliding, growing buffer, whose earlier fields are rewritten in place. */
module CsvReaderObject {
  import opened CsvSpec
  import opened ScopedBuffer

  /** The first `c` of `buf[from..to]`, or `to`. */
  method MemChr(buf: array<char>, from: nat, to: nat, c: char) returns (i: nat)
    requires from <= to <= buf.Length
    ensures from <= i <= to
    ensures i < to ==> buf[i] == c
    ensures forall k :: from <= k < i ==> buf[k] != c
  {
    i := from;
    while i < to && buf[i] != c
      invariant from <= i <= to
      invariant forall k :: from <= k < i ==> buf[k] != c
    {
      i := i + 1;
    }
  }

  method CountChar(buf: array<char>, head: nat, tail: nat, c: char) returns (r: nat)
    requires head <= tail <= buf.Length
    ensures r == CountOf(buf[head..tail], c)
  {
    r := 0;
    var i := head;
    while i != tail
      invariant head <= i <= tail
      invariant CountOf(buf[head..tail], c) == r + CountOf(buf[i..tail], c)
    {
      var k := MemChr(buf, i, tail, c);
      CountJump(buf[i..tail], k - i, c);
      if k == tail { break; }
      assert buf[i..tail][k - i..][1..] == buf[k + 1..tail];
      r, i := r + 1, k + 1;
    }
  }

  lemma {:induction false} CountJump(s: string, k: nat, c: char)
    requires k <= |s| && forall i :: 0 <= i < k ==> s[i] != c
    ensures CountOf(s, c) == CountOf(s[k..], c)
    decreases k
  {
    if k == 0 {
      assert s[0..] == s;
    } else {
      CountJump(s[1..], k - 1, c);
      assert s[1..][k - 1..] == s[k..];
    }
  }

  /** Moves `n` characters down; the ranges may overlap. */
  method MemMoveDown(buf: array<char>, to: nat, from: nat, n: nat)
    requires to <= from && from + n <= buf.Length
    modifies buf
    ensures buf[..to] == old(buf[..to])
    ensures buf[to..to + n] == old(buf[from..from + n])
    ensures buf[to + n..] == old(buf[to + n..])
  {
    ghost var was := buf[..];
    var i := to;
    while i < to + n
      invariant to <= i <= to + n
      invariant forall k :: 0 <= k < to ==> buf[k] == was[k]
      invariant forall k :: to <= k < i ==> buf[k] == was[k + (from - to)]
      invariant forall k :: i <= k < buf.Length ==> buf[k] == was[k]
    {
      buf[i] := buf[i + (from - to)];
      i := i + 1;
    }
  }

  /** Collapses doubled quotes of `buf[head..tail]` in place and gives the new end. */
  method ReplaceDoubleQuotes(buf: array<char>, head: nat, tail: nat) returns (end: nat)
    requires head <= tail <= buf.Length
    modifies buf
    ensures head <= end <= tail
    ensures buf[head..end] == Collapse(old(buf[head..tail]))
    ensures buf[..head] == old(buf[..head]) && buf[tail..] == old(buf[tail..])
  {
    hide Collapse, Collapsing;
    ghost var orig := buf[..];
    CollapseShort("");
    if head == tail { return tail; }
    end := tail;
    var h, i := head, tail - 1;
    CollapseStart(orig, head, tail);
    while h != i
      invariant head <= h <= i < tail && end == i + 1
      invariant Collapsing(orig, buf[..], head, h, end, tail)
    {
      var k := MemChr(buf, h, i, QUOTE);
      CollapsePast(orig, buf[..], head, h, k, end, tail);
      h := k;
      if k == i { break; }
      if buf[h + 1] == QUOTE {
        ghost var was := buf[..];
        MemMoveDown(buf, h, h + 1, i - h);
        CollapseShift(orig, was, buf[..], head, h, i, tail);
        end := i;
        i := i - 1;
        if h == i {
          CollapseLast(orig, buf[..], head, h, tail);
          return end;
        }
      } else {
        CollapsePass(orig, buf[..], head, h, end, tail);
      }
      h := h + 1;
    }
    CollapseEnd(orig, buf[..], head, h, tail);
  }

  /** Up to `h` the text stands collapsed; what is left ends at `end`; nothing outside has changed. */
  ghost predicate Collapsing(orig: string, s: string, head: nat, h: nat, end: nat, tail: nat)
    requires head <= h <= end <= tail <= |orig| == |s|
  {
    && Collapse(orig[head..tail]) == s[head..h] + Collapse(s[h..end])
    && s[..head] == orig[..head] && s[tail..] == orig[tail..]
  }

  lemma CollapseStart(orig: string, head: nat, tail: nat)
    requires head <= tail <= |orig|
    ensures Collapsing(orig, orig, head, head, tail, tail)
  {
    hide Collapse;
    assert orig[head..head] == "";
  }

  lemma CollapsePast(orig: string, s: string, head: nat, h: nat, k: nat, end: nat, tail: nat)
    requires head <= h <= k <= end <= tail <= |orig| == |s| && Collapsing(orig, s, head, h, end, tail)
    requires forall i :: h <= i < k ==> s[i] != QUOTE
    ensures Collapsing(orig, s, head, k, end, tail)
  {
    hide Collapse;
    JumpStep(s, head, h, k, end);
  }

  lemma CollapsePass(orig: string, s: string, head: nat, h: nat, end: nat, tail: nat)
    requires head <= h && h + 1 < end <= tail <= |orig| == |s| && Collapsing(orig, s, head, h, end, tail)
    requires s[h + 1] != QUOTE
    ensures Collapsing(orig, s, head, h + 1, end, tail)
  {
    hide Collapse;
    PassStep(s, head, h, end);
  }

  lemma CollapseShift(orig: string, was: string, s: string, head: nat, h: nat, i: nat, tail: nat)
    requires head <= h < i < tail <= |orig| == |was| == |s| && was[h] == QUOTE && was[h + 1] == QUOTE
    requires Collapsing(orig, was, head, h, i + 1, tail)
    requires s[..h] == was[..h] && s[h..i] == was[h + 1..i + 1] && s[i..] == was[i..]
    ensures Collapsing(orig, s, head, h + 1, i, tail)
  {
    hide Collapse;
    ShiftStep(was, s, head, h, i, tail);
  }

  /** One character or none is left. */
  lemma CollapseEnd(orig: string, s: string, head: nat, h: nat, tail: nat)
    requires head <= h < tail <= |orig| == |s| && Collapsing(orig, s, head, h, h + 1, tail)
    ensures s[head..h + 1] == Collapse(orig[head..tail]) && s[..head] == orig[..head] && s[tail..] == orig[tail..]
  {
    hide Collapse;
    CollapseShort(s[h..h + 1]);
    assert s[head..h] + s[h..h + 1] == s[head..h + 1];
  }

  lemma CollapseLast(orig: string, s: string, head: nat, h: nat, tail: nat)
    requires head <= h < tail <= |orig| == |s| && Collapsing(orig, s, head, h + 1, h + 1, tail)
    ensures s[head..h + 1] == Collapse(orig[head..tail]) && s[..head] == orig[..head] && s[tail..] == orig[tail..]
  {
    hide Collapse;
    CollapseShort(s[h + 1..h + 1]);
    assert s[head..h + 1] + "" == s[head..h + 1];
  }

  lemma CollapseShort(s: string)
    requires |s| < 2
    ensures Collapse(s) == s
  {
  }

  /** No quote in `s[h..k]`. */
  lemma JumpStep(s: string, head: nat, h: nat, k: nat, end: nat)
    requires head <= h <= k <= end <= |s| && forall i :: h <= i < k ==> s[i] != QUOTE
    ensures s[head..h] + Collapse(s[h..end]) == s[head..k] + Collapse(s[k..end])
  {
    hide Collapse;
    CollapseJump(s[h..end], k - h);
    assert s[h..end][..k - h] == s[h..k] && s[h..end][k - h..] == s[k..end];
    assert s[head..h] + s[h..k] == s[head..k];
  }

  /** A single quote at `h` stays. */
  lemma PassStep(s: string, head: nat, h: nat, end: nat)
    requires head <= h && h + 1 < end <= |s| && s[h + 1] != QUOTE
    ensures s[head..h] + Collapse(s[h..end]) == s[head..h + 1] + Collapse(s[h + 1..end])
  {
    assert s[h..end][1..] == s[h + 1..end];
    JoinOne(s, head, h);
  }

  /** A doubled quote at `h`: everything behind it moves down by one. */
  lemma ShiftStep(was: string, s: string, head: nat, h: nat, i: nat, tail: nat)
    requires head <= h < i < tail <= |was| == |s| && was[h] == QUOTE && was[h + 1] == QUOTE
    requires s[..h] == was[..h] && s[h..i] == was[h + 1..i + 1] && s[i..] == was[i..]
    ensures s[..head] == was[..head] && s[tail..] == was[tail..]
    ensures was[head..h] + Collapse(was[h..i + 1]) == s[head..h + 1] + Collapse(s[h + 1..i])
  {
    assert s[..head] == was[..head] by { assert s[..h][..head] == was[..h][..head]; }
    assert s[tail..] == was[tail..] by { assert s[i..][tail - i..] == was[i..][tail - i..]; }
    assert s[head..h] == was[head..h] by { assert s[..h][head..] == was[..h][head..]; }
    var t := was[h..i + 1];
    assert t[2..] == s[h + 1..i] by { assert s[h..i][1..] == was[h + 1..i + 1][1..]; }
    assert s[h] == s[h..i][0] == QUOTE;
    CollapsePair(t);
    JoinOne(s, head, h);
  }

  lemma CollapsePair(t: string)
    requires |t| >= 2 && t[0] == QUOTE && t[1] == QUOTE
    ensures Collapse(t) == [QUOTE] + Collapse(t[2..])
  {
  }

  lemma JoinOne(s: string, head: nat, h: nat)
    requires head <= h < |s|
    ensures s[head..h] + [s[h]] == s[head..h + 1]
  {
  }

  lemma {:induction false} CollapseJump(s: string, k: nat)
    requires k <= |s| && forall i :: 0 <= i < k ==> s[i] != QUOTE
    ensures Collapse(s) == s[..k] + Collapse(s[k..])
    decreases k
  {
    hide Collapse;
    if k == 0 {
      assert s[0..] == s && s[..0] == "";
    } else {
      CollapseJump(s[1..], k - 1);
      HeadTail(s, k);
      CollapseOne(s);
    }
  }

  lemma CollapseOne(s: string)
    requires s != "" && s[0] != QUOTE
    ensures Collapse(s) == [s[0]] + Collapse(s[1..])
  {
    if |s| == 1 { assert s == [s[0]]; }
  }

  lemma HeadTail(s: string, k: nat)
    requires 0 < k <= |s|
    ensures s[1..][k - 1..] == s[k..] && s[..k] == [s[0]] + s[1..][..k - 1]
  {
  }

  // ---------- fields ----------

  lemma Sub(s: string, lo: nat, hi: nat, i: nat, j: nat)
    requires lo <= hi <= |s| && i <= j <= hi - lo
    ensures s[lo..hi][i..j] == s[lo + i..lo + j]
  {
    var a, b := s[lo..hi][i..j], s[lo + i..lo + j];
    assert |a| == |b| && forall k :: 0 <= k < |a| ==> a[k] == b[k];
  }

  lemma TrimmedNone(s: string, replace: bool)
    requires forall k :: 0 <= k < |s| ==> s[k] != QUOTE
    ensures Trimmed(s, replace) == s
  {
  }

  /** `i` is the first quote, `from` where the text starts, `to` the last quote behind `from`. */
  lemma TrimmedIs(s: string, i: nat, from: nat, to: nat, replace: bool)
    requires i < |s| && s[i] == QUOTE && forall k :: 0 <= k < i ==> s[k] != QUOTE
    requires from == (if i + 1 < |s| then i + 1 else i) && from <= to < |s|
    requires (to > from ==> s[to] == QUOTE) && forall k :: to < k < |s| ==> s[k] != QUOTE
    ensures Trimmed(s, replace) == if replace then Collapse(s[from..to]) else s[from..to]
  {
    hide Collapse, LastQuote;
    assert First(s, QUOTE) == i by { hide First; }
    assert LastQuote(s, from) == to;
  }

  lemma ScanStart(s: string)
    ensures !Odd(0) && Cut(s, ',', false) == Cut(s, ',', Odd(0))
  {
  }

  lemma ScanEnd(c: char, odd: bool)
    ensures Cut("", c, odd) == 0
  {
  }

  /** A scan that has `m` quotes behind it meets a `c` at `e`, with `n` more quotes to go over. */
  lemma ScanStep(w: string, i: nat, e: nat, tail: nat, c: char, m: nat, n: nat)
    requires i <= e < tail <= |w| && c != QUOTE && w[e] == c && forall k :: i <= k < e ==> w[k] != c
    requires n == CountOf(w[i..e], QUOTE)
    ensures Cut(w[i..tail], c, Odd(m)) == if Odd(m + n) then e + 1 - i + Cut(w[e + 1..tail], c, Odd(m + n)) else e - i
  {
    hide Odd, Cut, CountOf;
    Sub(w, i, tail, 0, e - i);
    Sub(w, i, tail, e - i + 1, tail - i);
    assert forall k :: 0 <= k < e - i ==> w[i..tail][k] == w[i + k];
    CutJump(w[i..tail], e - i, c, Odd(m));
    OddSum(m, n);
  }

  lemma ScanMiss(w: string, i: nat, tail: nat, c: char, odd: bool)
    requires i <= tail <= |w| && forall k :: i <= k < tail ==> w[k] != c
    ensures Cut(w[i..tail], c, odd) == tail - i
  {
    CutNone(w[i..tail], c, odd);
  }

  /** Fields of one record, read off the buffer; the text of a field is rewritten where it stands. */
  class FieldIterator {
    const buf: array<char>
    const replace: bool
    var head: nat
    var tail: nat
    var emptyField: bool

    ghost predicate Valid()
      reads this
    {
      head <= tail <= buf.Length
    }

    ghost function Left(): seq<string>
      requires Valid()
      reads this, buf
    {
      Fields(buf[head..tail], emptyField, replace)
    }

    constructor (buf: array<char>, head: nat, tail: nat, replace: bool)
      requires head <= tail <= buf.Length
      ensures Valid() && this.buf == buf && this.replace == replace && this.head == head && this.tail == tail
      ensures Left() == RecordFields(buf[head..tail], replace)
    {
      this.buf, this.head, this.tail, this.replace := buf, head, tail, replace;
      emptyField := head == tail || buf[tail - 1] == ',';
    }

    method Trim(head: nat, tail: nat) returns (start: nat, end: nat)
      requires head <= tail <= buf.Length
      modifies buf
      ensures head <= start <= end <= tail
      ensures buf[start..end] == Trimmed(old(buf[head..tail]), replace)
      ensures buf[..head] == old(buf[..head]) && buf[tail..] == old(buf[tail..])
    {
      hide Collapse, Trimmed;
      start, end := head, tail;
      ghost var s := buf[head..tail];
      if head == tail {
        TrimmedNone(s, replace);
        return;
      }
      var i := MemChr(buf, head, tail, QUOTE);
      if i == tail {
        TrimmedNone(s, replace);
        return;
      }
      start := i;
      if start + 1 != tail { start := start + 1; }
      end := tail - 1;
      while end != start && buf[end] != QUOTE
        invariant start <= end < tail
        invariant forall k :: end < k < tail ==> buf[k] != QUOTE
      {
        end := end - 1;
      }
      TrimmedIs(s, i - head, start - head, end - head, replace);
      Sub(buf[..], head, tail, start - head, end - head);
      if replace {
        end := Collapsed(head, start, end, tail);
      }
    }

    method Collapsed(head: nat, start: nat, end: nat, tail: nat) returns (to: nat)
      requires head <= start <= end <= tail <= buf.Length
      modifies buf
      ensures start <= to <= end && buf[start..to] == Collapse(old(buf[start..end]))
      ensures buf[..head] == old(buf[..head]) && buf[tail..] == old(buf[tail..])
    {
      hide Collapse;
      ghost var was := buf[..];
      to := ReplaceDoubleQuotes(buf, start, end);
      assert buf[..head] == buf[..start][..head] == was[..start][..head] == was[..head];
      assert buf[tail..] == buf[end..][tail - end..] == was[end..][tail - end..] == was[tail..];
    }

    /** Scans for the comma that ends the field at `head`: the first with an even number of quotes before it.
        Without one, `rest` says whether the scan stopped in text behind the last comma. */
    method Separator() returns (at: nat, rest: bool)
      requires Valid()
      ensures at == head + Cut(buf[head..tail], ',', false) <= tail
      ensures at == tail ==> rest == (head != tail && buf[tail - 1] != ',')
    {
      hide Cut, Odd, CountOf;
      var quoteChars := 0;
      var i := head;
      ScanStart(buf[head..tail]);
      while i != tail
        invariant head <= i <= tail
        invariant Cut(buf[head..tail], ',', false) == i - head + Cut(buf[i..tail], ',', Odd(quoteChars))
        invariant i > head ==> buf[i - 1] == ','
      {
        var c := MemChr(buf, i, tail, ',');
        if c == tail {
          ScanMiss(buf[..], i, tail, ',', Odd(quoteChars));
          return tail, true;
        }
        var n := CountChar(buf, i, c, QUOTE);
        ScanStep(buf[..], i, c, tail, ',', quoteChars, n);
        quoteChars := quoteChars + n;
        if !Odd(quoteChars) { return c, false; }
        i := c + 1;
      }
      ScanEnd(',', Odd(quoteChars));
      at, rest := tail, false;
    }

    /** Gives the place of the next field's text, or none: the fields are those of the record, in order,
        whatever was rewritten before, and nothing outside the record is touched. */
    method Next() returns (ok: bool, start: nat, end: nat)
      requires Valid()
      modifies this`head, this`emptyField, buf
      ensures Valid() && old(head) <= head
      ensures ok == (old(Left()) != [])
      ensures ok ==> start <= end <= buf.Length && buf[start..end] == old(Left())[0] && Left() == old(Left())[1..]
      ensures !ok ==> Left() == []
      ensures buf[..old(head)] == old(buf[..head]) && buf[tail..] == old(buf[tail..])
    {
      hide Trimmed, Cut, Fields;
      var at, rest := Separator();
      ok := true;
      if at != tail {
        start, end := TakeCut(at);
      } else if rest {
        start, end := TakeRest();
      } else {
        FieldOwed(buf[head..tail], emptyField, replace);
        start, end, ok := 0, 0, emptyField;
        emptyField := false;
      }
    }

    /** A field in front of a comma. */
    method TakeCut(at: nat) returns (start: nat, end: nat)
      requires Valid() && at < tail && at == head + Cut(buf[head..tail], ',', false)
      modifies this`head, buf
      ensures Valid() && old(head) <= head
      ensures old(Left()) != [] && start <= end <= buf.Length && buf[start..end] == old(Left())[0]
              && Left() == old(Left())[1..]
      ensures buf[..old(head)] == old(buf[..head]) && buf[tail..] == old(buf[tail..])
    {
      hide Trimmed, Cut, Fields;
      FieldCut(buf[head..tail], emptyField, replace);
      Sub(buf[..], head, tail, 0, at - head);
      Sub(buf[..], head, tail, at - head + 1, tail - head);
      start, end := TrimAt(at);
      head := at + 1;
    }

    /** The last field, not followed by a comma. */
    method TakeRest() returns (start: nat, end: nat)
      requires Valid() && head != tail && buf[tail - 1] != ',' && tail == head + Cut(buf[head..tail], ',', false)
      modifies this`head, buf
      ensures Valid() && old(head) <= head
      ensures old(Left()) != [] && start <= end <= buf.Length && buf[start..end] == old(Left())[0]
              && Left() == old(Left())[1..]
      ensures buf[..old(head)] == old(buf[..head]) && buf[tail..] == old(buf[tail..])
    {
      hide Trimmed, Cut, Fields;
      FieldLast(buf[head..tail], emptyField, replace);
      start, end := Trim(head, tail);
      head := tail;
      assert buf[head..tail] == "";
    }

    method TrimAt(at: nat) returns (start: nat, end: nat)
      requires Valid() && head <= at < tail
      modifies buf
      ensures head <= start <= end <= at && buf[start..end] == Trimmed(old(buf[head..at]), replace)
      ensures buf[..head] == old(buf[..head])
      ensures buf[at + 1..tail] == old(buf[at + 1..tail]) && buf[tail..] == old(buf[tail..])
    {
      hide Trimmed;
      ghost var was := buf[..];
      start, end := Trim(head, at);
      assert buf[at + 1..tail] == buf[at..][1..tail - at] == was[at..][1..tail - at] == was[at + 1..tail];
      assert buf[tail..] == buf[at..][tail - at..] == was[at..][tail - at..] == was[tail..];
    }
  }

  // ---------- records ----------

  /** A byte stream that gives what is asked for, or all it has left. */
  class Input {
    var rest: string

    constructor (whole: string)
      ensures rest == whole
    {
      rest := whole;
    }

    method Read(buf: array<char>, at: nat, size: nat) returns (n: nat)
      requires at + size <= buf.Length
      modifies this, buf
      ensures n == if size <= |old(rest)| then size else |old(rest)|
      ensures rest == old(rest)[n..]
      ensures buf[..at] == old(buf[..at]) && buf[at..at + n] == old(rest)[..n]
    {
      n := if size <= |rest| then size else |rest|;
      forall k | 0 <= k < n { buf[at + k] := rest[k]; }
      rest := rest[n..];
    }
  }

  predicate PowerOfTwo(n: nat) { n == 1 || (n > 1 && n % 2 == 0 && PowerOfTwo(n / 2)) }

  /** Half as much again, rounded to a multiple of `n`: for a power of two the mask is this subtraction. */
  function Grown(size: nat, n: nat): (r: nat)
    requires n > 1
    ensures size > 1 ==> r > size
    ensures r % n == 0
  {
    var x := size * 3 / 2 + n - 1;
    RoundedDown(x, n);
    x - x % n
  }

  lemma RoundedDown(x: nat, n: nat)
    requires n > 0
    ensures (x - x % n) % n == 0
  {
    ModOfMultiple(x / n, n);
    assert x - x % n == x / n * n;
  }

  lemma ModOfMultiple(q: nat, n: nat)
    requires n > 0
    ensures q * n % n == 0
  {
    var m := q * n;
    var d := q - m / n;
    assert n * d == m % n;
    assert d >= 1 ==> n * d >= n;
  }

  lemma StripSame(a: string, b: string, k: nat)
    requires k < |a|
    ensures (a + b)[..StripAt(a + b, k)] == a[..StripAt(a, k)]
  {
    assert StripAt(a + b, k) == StripAt(a, k);
  }

  lemma AppendFrom(a: string, b: string, k: nat)
    requires k <= |a|
    ensures (a + b)[k..] == a[k..] + b
  {
  }

  lemma LineEndAt(a: string, b: string)
    requires LineEnd(a) < |a|
    ensures LineEnd(a + b) == LineEnd(a)
  {
    hide Cut, CountOf;
    CutConcat(a, b, '\n', false);
  }

  /** `a` is in the buffer and `b` still in the stream; the record ends at `k`. */
  lemma RecordAt(a: string, b: string, k: nat)
    requires k == Cut(a, '\n', false) < |a|
    ensures Record(a + b) == a[..StripAt(a, k)]
    ensures AfterRecord(a + b) == a[k + 1..] + b
  {
    hide Cut, StripAt;
    LineEndAt(a, b);
    StripSame(a, b, k);
    AppendFrom(a, b, k + 1);
  }

  lemma LastRecord(a: string)
    requires Cut(a, '\n', false) == |a|
    ensures Record(a) == a[..StripAt(a, |a|)] && AfterRecord(a) == ""
  {
    assert a[..|a|] == a;
  }

  /** The fields of the record that ends at `eol`; a carriage return in front of a line feed is left out. */
  method FieldIt(data: array<char>, head: nat, eol: nat, tail: nat, replace: bool) returns (it: FieldIterator)
    requires head <= eol <= tail <= data.Length
    ensures fresh(it) && it.Valid() && it.buf == data && it.replace == replace && it.tail <= eol
    ensures var a := data[head..tail]; it.Left() == RecordFields(a[..StripAt(a, eol - head)], replace)
  {
    hide RecordFields, StripAt;
    var end := eol;
    if eol != head && eol != tail && data[eol - 1] == '\r' { end := end - 1; }
    StrippedText(data[..], head, tail, eol, end);
    it := new FieldIterator(data, head, end, replace);
  }

  class CsvReader {
    const n: nat
    const replace: bool
    const lineBuf: ScopedBuf
    var input: Input?
    var head: nat
    var tail: nat
    var skip: nat
    var quoteChars: nat

    ghost predicate Sized()
      reads lineBuf
    {
      n > 1 && lineBuf.Valid() && lineBuf.size > 1
    }

    /** While the stream is open, what is buffered reaches to the end of the buffer. */
    ghost predicate Valid()
      reads this`head, this`tail, this`input, lineBuf
    {
      && Sized()
      && head <= tail <= lineBuf.size
      && (input != null && head < tail ==> tail == lineBuf.size)
    }

    ghost function Buffered(): string
      requires Valid()
      reads this`head, this`tail, this`input, lineBuf, lineBuf.Data()
    {
      lineBuf.Data()[head..tail]
    }

    ghost function Coming(): string
      reads this`input, input
    {
      if input == null then "" else input.rest
    }

    /** All that is still to be handed out. */
    ghost function Rest(): string
      requires Valid()
      reads this`head, this`tail, this`input, lineBuf, lineBuf.Data(), input
    {
      Buffered() + Coming()
    }

    constructor (n: nat, input: Input, replace: bool)
      requires n > 1 && PowerOfTwo(n)
      modifies input
      ensures Valid() && fresh(lineBuf) && fresh(lineBuf.Data()) && this.n == n && this.replace == replace
      ensures this.input == null || this.input == input
      ensures Rest() == old(input.rest)
    {
      this.n, this.input, this.replace := n, input, replace;
      lineBuf := new ScopedBuf(n);
      head, tail, skip, quoteChars := 0, 0, 0, 0;
      new;
      var d := lineBuf.Alloc(n);
      var r := FillBuf();
    }

    /** A larger block that starts with the same `keep` characters. */
    method Enlarge(keep: nat)
      requires Sized() && keep <= lineBuf.size
      modifies lineBuf
      ensures Sized() && lineBuf.size > old(lineBuf.size) && fresh(lineBuf.Data())
      ensures lineBuf.Data()[..keep] == old(lineBuf.Data()[..keep])
    {
      var data := lineBuf.Data();
      var tmp := new ScopedBuf(0);
      var d := tmp.Alloc(Grown(lineBuf.size, n));
      forall k | 0 <= k < keep { d[k] := data[k]; }
      assert d[..keep] == data[..keep];
      lineBuf.Release();
      lineBuf.Swap(tmp);
    }

    /** Takes over what is in the buffer and makes room behind it, by moving it down or by a larger block. */
    method MakeRoom()
      requires Valid() && input != null
      modifies this, lineBuf, lineBuf.Data()
      ensures Sized() && head == 0 && skip == tail == |old(Buffered())| < lineBuf.size
      ensures quoteChars == old(quoteChars)
      ensures lineBuf.Data()[..skip] == old(Buffered()) && input == old(input)
      ensures lineBuf.Data() == old(lineBuf.Data()) || fresh(lineBuf.Data())
    {
      skip := tail - head;
      if skip != 0 {
        var data := lineBuf.Data();
        if head != 0 {
          MemMoveDown(data, 0, head, skip);
        } else {
          Enlarge(skip);
        }
      }
      head, tail := 0, skip;
    }

    /** One read: nothing is lost or reordered, and the stream is let go of exactly when it gives too little. */
    method FillBuf() returns (r: nat)
      requires Valid()
      modifies this, lineBuf, lineBuf.Data(), input
      ensures Valid()
      ensures Rest() == old(Rest()) && old(Buffered()) <= Buffered()
      ensures old(input) != null ==> skip == |old(Buffered())| && r == |Buffered()| - skip
      ensures old(input) == null ==> r == 0 && input == null
      ensures quoteChars == old(quoteChars)
      ensures input == null || (input == old(input) && |input.rest| < |old(input.rest)|)
      ensures lineBuf.Data() == old(lineBuf.Data()) || fresh(lineBuf.Data())
    {
      if input == null { return 0; }
      MakeRoom();
      r := ReadIn();
    }

    /** The read itself, behind the `skip` characters that are kept. */
    method ReadIn() returns (r: nat)
      requires Sized() && input != null && head == 0 && skip == tail < lineBuf.size
      modifies this`tail, this`input, lineBuf.Data(), input
      ensures Valid() && skip + r == tail
      ensures Buffered() + Coming() == old(lineBuf.Data()[..skip] + input.rest)
              && Buffered()[..skip] == old(lineBuf.Data()[..skip])
      ensures input == null || (input == old(input) && |input.rest| < |old(input.rest)|)
    {
      ghost var rest := input.rest;
      var data, size := lineBuf.Data(), lineBuf.size;
      ghost var was := data[..];
      r := input.Read(data, skip, size - skip);
      tail := r + skip;
      ReadOn(data[..], was, skip, rest, r);
      assert data[0..tail] == data[..tail];
      if r != size - skip {
        NothingLeft(rest, r);
        input := null;
      }
    }

    /** The line feed that ends the record, seen from `from` on, with the quotes before `from` already counted. */
    method Find(from: nat) returns (found: bool, eol: nat)
      requires Valid() && head <= from <= tail
      requires Cut(lineBuf.Data()[head..from], '\n', false) == from - head
      requires quoteChars == CountOf(lineBuf.Data()[head..from], QUOTE)
      modifies this`quoteChars
      ensures found == (Cut(Buffered(), '\n', false) < |Buffered()|)
      ensures found ==> eol == head + Cut(Buffered(), '\n', false)
      ensures !found ==> quoteChars == CountOf(Buffered(), QUOTE)
    {
      hide Cut, Odd, CountOf, Scanned;
      var data := lineBuf.Data();
      ghost var w := data[..];
      ScanFrom(w, head, from, tail, quoteChars);
      var i := from;
      while i != tail
        invariant from <= i <= tail && Scanned(w, head, i, tail, quoteChars)
      {
        var c := MemChr(data, i, tail, '\n');
        var n := CountChar(data, i, c, QUOTE);
        if c == tail {
          ScanOver(w, head, i, tail, quoteChars, n);
          quoteChars := quoteChars + n;
          return false, 0;
        }
        ScanOn(w, head, i, c, tail, quoteChars, n);
        quoteChars := quoteChars + n;
        if !Odd(quoteChars) { return true, c; }
        i := c + 1;
      }
      ScanDone(w, head, tail, quoteChars);
      found, eol := false, 0;
    }

    /** One read and a scan of what it brought. */
    method More() returns (found: bool, eol: nat)
      requires Valid() && input != null
      requires Cut(Buffered(), '\n', false) == |Buffered()| && quoteChars == CountOf(Buffered(), QUOTE)
      modifies this, lineBuf, lineBuf.Data(), input
      ensures Valid() && Rest() == old(Rest())
      ensures input == null || (input == old(input) && |input.rest| < |old(input.rest)|)
      ensures lineBuf.Data() == old(lineBuf.Data()) || fresh(lineBuf.Data())
      ensures found == (Cut(Buffered(), '\n', false) < |Buffered()|)
      ensures found ==> eol == head + Cut(Buffered(), '\n', false)
      ensures !found ==> quoteChars == CountOf(Buffered(), QUOTE)
    {
      hide Cut, CountOf, Rest;
      ghost var before := Buffered();
      var r := FillBuf();
      Sub(lineBuf.Data()[..], head, tail, 0, skip);
      assert lineBuf.Data()[head..head + skip] == Buffered()[..skip] == before;
      found, eol := Find(head + skip);
    }

    /** Reads on until the record's line feed is in the buffer or the stream has ended. */
    method Seek() returns (found: bool, eol: nat)
      requires Valid()
      modifies this, lineBuf, lineBuf.Data(), input
      ensures Valid() && Rest() == old(Rest())
      ensures input == null || input == old(input)
      ensures lineBuf.Data() == old(lineBuf.Data()) || fresh(lineBuf.Data())
      ensures found == (Cut(Buffered(), '\n', false) < |Buffered()|)
      ensures if found then eol == head + Cut(Buffered(), '\n', false) else input == null
    {
      hide Cut, CountOf;
      found, eol := false, 0;
      quoteChars := 0;
      FindStart(lineBuf.Data()[..], head, tail);
      if head != tail { found, eol := Find(head); }
      while !found && input != null
        invariant Valid() && Rest() == old(Rest())
        invariant input == null || input == old(input)
        invariant lineBuf.Data() == old(lineBuf.Data()) || fresh(lineBuf.Data())
        invariant found == (Cut(Buffered(), '\n', false) < |Buffered()|)
        invariant found ==> eol == head + Cut(Buffered(), '\n', false)
        invariant !found ==> quoteChars == CountOf(Buffered(), QUOTE)
        decreases if input == null then 0 else |input.rest| + 1
      {
        found, eol := More();
      }
    }

    /** The next record of the whole input, if there is one. */
    method Next() returns (it: FieldIterator?)
      requires Valid()
      modifies this, lineBuf, lineBuf.Data(), input
      ensures Valid() && (input == null || input == old(input))
      ensures lineBuf.Data() == old(lineBuf.Data()) || fresh(lineBuf.Data())
      ensures it != null ==> fresh(it) && it.Valid()
      ensures it != null ==> it.buf == lineBuf.Data() && it.replace == replace && it.tail <= head
      ensures it == null ==> Rest() == ""
      ensures var s := old(Rest());
              && (it == null) == (s == "")
              && (it != null ==> Rest() == AfterRecord(s) && it.Left() == RecordFields(Record(s), replace))
    {
      hide Cut, CountOf, RecordFields, Record, AfterRecord;
      var found, eol := Seek();
      it := null;
      if head == tail {
        ScanEnd('\n', false);
        assert Buffered() == "";
      } else {
        it := Take(found, eol);
      }
    }

    /** Hands out the record that ends at `eol`, or at the end of the input, and steps behind it. */
    method Take(found: bool, at: nat) returns (it: FieldIterator)
      requires Valid() && head != tail
      requires found == (Cut(Buffered(), '\n', false) < |Buffered()|)
      requires if found then at == head + Cut(Buffered(), '\n', false) else input == null
      modifies this`head
      ensures Valid()
      ensures fresh(it) && it.Valid() && it.buf == lineBuf.Data() && it.replace == replace && it.tail <= head
      ensures it.Left() == RecordFields(Record(old(Rest())), replace)
      ensures Rest() == AfterRecord(old(Rest()))
    {
      hide Cut, CountOf, RecordFields, Record, AfterRecord, StripAt, FieldIterator.Left;
      ghost var w, h := lineBuf.Data()[..], head;
      var eol := at;
      if !found { eol := tail; }
      RecordTaken(w[head..tail], Coming(), found, eol - head);
      it := FieldIt(lineBuf.Data(), head, eol, tail, replace);
      head := eol;
      if head != tail { head := head + 1; }
      Sub(w, h, tail, head - h, tail - h);
    }
  }

  /** The record at the front of what is buffered (`a`) and coming (`b`), and what is left behind it. */
  lemma RecordTaken(a: string, b: string, found: bool, k: nat)
    requires k <= |a| && found == (Cut(a, '\n', false) < |a|)
    requires if found then k == Cut(a, '\n', false) else k == |a| && b == ""
    ensures Record(a + b) == a[..StripAt(a, k)]
    ensures AfterRecord(a + b) == a[if k < |a| then k + 1 else k..] + b
  {
    hide Cut, CountOf, Record, AfterRecord, StripAt;
    if found {
      RecordAt(a, b, k);
    } else {
      LastRecord(a);
      assert a + b == a && a[k..] == "";
    }
  }

  lemma FindStart(w: string, head: nat, tail: nat)
    requires head <= tail <= |w|
    ensures CountOf(w[head..head], QUOTE) == 0 && Cut(w[head..head], '\n', false) == 0
    ensures head == tail ==> w[head..tail] == ""
  {
  }

  lemma CountSplit(w: string, head: nat, i: nat, c: nat)
    requires head <= i <= c <= |w|
    ensures CountOf(w[head..c], QUOTE) == CountOf(w[head..i], QUOTE) + CountOf(w[i..c], QUOTE)
  {
    hide CountOf;
    CountConcat(w[head..i], w[i..c], QUOTE);
    assert w[head..i] + w[i..c] == w[head..c];
  }

  lemma CountLineFeed(w: string, head: nat, c: nat)
    requires head <= c < |w| && w[c] == '\n'
    ensures CountOf(w[head..c + 1], QUOTE) == CountOf(w[head..c], QUOTE)
  {
    CountSplit(w, head, c, c + 1);
    assert w[c..c + 1] == "\n";
  }

  /** The scan of `w[head..tail]` has come to `i` and counted `q` quotes, and the record does not end before. */
  ghost predicate Scanned(w: string, head: nat, i: nat, tail: nat, q: nat)
    requires head <= i <= tail <= |w|
  {
    && q == CountOf(w[head..i], QUOTE)
    && Cut(w[head..tail], '\n', false) == i - head + Cut(w[i..tail], '\n', Odd(q))
  }

  lemma ScanFrom(w: string, head: nat, from: nat, tail: nat, q: nat)
    requires head <= from <= tail <= |w| && Cut(w[head..from], '\n', false) == from - head
    requires q == CountOf(w[head..from], QUOTE)
    ensures Scanned(w, head, from, tail, q)
  {
    hide Cut, CountOf;
    CutConcat(w[head..from], w[from..tail], '\n', false);
    assert w[head..from] + w[from..tail] == w[head..tail];
  }

  /** The scan goes on to the line feed at `c`. */
  lemma ScanOn(w: string, head: nat, i: nat, c: nat, tail: nat, q: nat, n: nat)
    requires head <= i <= c < tail <= |w| && Scanned(w, head, i, tail, q)
    requires w[c] == '\n' && (forall k :: i <= k < c ==> w[k] != '\n') && n == CountOf(w[i..c], QUOTE)
    ensures if Odd(q + n) then Scanned(w, head, c + 1, tail, q + n) else Cut(w[head..tail], '\n', false) == c - head
  {
    hide Cut, Odd, CountOf;
    CountSplit(w, head, i, c);
    ScanStep(w, i, c, tail, '\n', q, n);
    CountLineFeed(w, head, c);
  }

  /** No line feed is left. */
  lemma ScanOver(w: string, head: nat, i: nat, tail: nat, q: nat, n: nat)
    requires head <= i <= tail <= |w| && Scanned(w, head, i, tail, q)
    requires (forall k :: i <= k < tail ==> w[k] != '\n') && n == CountOf(w[i..tail], QUOTE)
    ensures Cut(w[head..tail], '\n', false) == tail - head && q + n == CountOf(w[head..tail], QUOTE)
  {
    hide Cut, Odd, CountOf;
    CountSplit(w, head, i, tail);
    ScanMiss(w, i, tail, '\n', Odd(q));
  }

  lemma ScanDone(w: string, head: nat, tail: nat, q: nat)
    requires head <= tail <= |w| && Scanned(w, head, tail, tail, q)
    ensures Cut(w[head..tail], '\n', false) == tail - head && q == CountOf(w[head..tail], QUOTE)
  {
    hide CountOf;
    assert w[tail..tail] == "";
  }

  lemma StripSlice(w: string, head: nat, tail: nat, eol: nat)
    requires head <= eol <= tail <= |w|
    ensures head + StripAt(w[head..tail], eol - head)
         == if eol != head && eol != tail && w[eol - 1] == '\r' then eol - 1 else eol
  {
  }

  lemma StrippedText(w: string, head: nat, tail: nat, eol: nat, end: nat)
    requires head <= eol <= tail <= |w|
    requires end == if eol != head && eol != tail && w[eol - 1] == '\r' then eol - 1 else eol
    ensures head <= end <= eol && w[head..end] == w[head..tail][..StripAt(w[head..tail], eol - head)]
  {
    hide StripAt;
    StripSlice(w, head, tail, eol);
    Sub(w, head, tail, 0, end - head);
  }

  lemma NothingLeft(rest: string, r: nat)
    requires r == |rest|
    ensures rest[r..] == ""
  {
  }

  lemma ReadOn(data: string, was: string, skip: nat, rest: string, r: nat)
    requires skip <= |was| && r <= |rest| && skip + r <= |data|
    requires data[..skip] == was[..skip] && data[skip..skip + r] == rest[..r]
    ensures data[..skip + r] == was[..skip] + rest[..r]
    ensures data[..skip + r] + rest[r..] == was[..skip] + rest
  {
    assert data[..skip + r] == data[..skip] + data[skip..skip + r];
    assert rest[..r] + rest[r..] == rest;
  }

  // ---------- the whole input ----------

  /** Walks one record. */
  method ReadRow(it: FieldIterator) returns (row: seq<string>)
    requires it.Valid()
    modifies it, it.buf
    ensures row == old(it.Left())
    ensures it.tail == old(it.tail) && it.buf[it.tail..] == old(it.buf[it.tail..])
  {
    hide Fields;
    row := [];
    var more := true;
    while more
      invariant it.Valid() && it.tail == old(it.tail) && it.buf[it.tail..] == old(it.buf[it.tail..])
      invariant old(it.Left()) == row + it.Left()
      invariant !more ==> it.Left() == []
      decreases |it.Left()|, more
    {
      ghost var left := it.Left();
      var ok, start, end := it.Next();
      if ok {
        row := row + [it.buf[start..end]];
        assert left == [left[0]] + left[1..];
      }
      more := ok;
    }
  }

  /** Reads a record off, fields and all. */
  method NextRow(reader: CsvReader) returns (ok: bool, row: seq<string>)
    requires reader.Valid()
    modifies reader, reader.lineBuf, reader.lineBuf.Data(), reader.input
    ensures reader.Valid() && (reader.input == null || reader.input == old(reader.input))
    ensures reader.lineBuf.Data() == old(reader.lineBuf.Data()) || fresh(reader.lineBuf.Data())
    ensures ok == (old(reader.Rest()) != "")
    ensures if ok then reader.Rest() == AfterRecord(old(reader.Rest())) else reader.Rest() == ""
    ensures ok ==> row == RecordFields(Record(old(reader.Rest())), reader.replace)
  {
    hide Record, AfterRecord, RecordFields;
    var it := reader.Next();
    ok, row := it != null, [];
    if it != null {
      ghost var was := it.buf[..];
      row := ReadRow(it);
      Behind(it.buf[..], was, it.tail, reader.head, reader.tail);
    }
  }

  /** Whatever the buffer size, and although every row was rewritten in place before the next was sought,
      the table read is that of the whole input. */
  method ReadTable(n: nat, whole: string, replace: bool) returns (t: seq<seq<string>>)
    requires n > 1 && PowerOfTwo(n)
    ensures t == Table(whole, replace)
  {
    hide Table, Record, AfterRecord, RecordFields;
    var input := new Input(whole);
    var reader := new CsvReader(n, input, replace);
    t := [];
    EmptyTable(replace);
    var more := true;
    while more
      invariant reader.Valid() && fresh(reader) && fresh(reader.lineBuf) && fresh(reader.lineBuf.Data())
      invariant reader.input == null || reader.input == input
      invariant reader.replace == replace
      invariant Table(whole, replace) == t + Table(reader.Rest(), replace)
      invariant !more ==> reader.Rest() == ""
      decreases |reader.Rest()|, more
    {
      ghost var s := reader.Rest();
      var ok, row := NextRow(reader);
      if ok {
        TableStep(s, replace);
        RecordShrinks(s);
        t := t + [row];
      }
      more := ok;
    }
  }

  lemma Behind(s: string, t: string, at: nat, lo: nat, hi: nat)
    requires |s| == |t| && at <= lo <= hi <= |s| && s[at..] == t[at..]
    ensures s[lo..hi] == t[lo..hi]
  {
    Sub(s, at, |s|, lo - at, hi - at);
    Sub(t, at, |t|, lo - at, hi - at);
    assert s[at..|s|] == s[at..] == t[at..] == t[at..|t|];
  }

  lemma RecordShrinks(s: string)
    requires s != ""
    ensures |AfterRecord(s)| < |s|
  {
  }
}
