/** The UTF-8 codec in its early form of up to six bytes (section 2 of RFC 2279): units are 32-bit, bytes 0..255. */
module Utf8 {

  const TWO_TO_31: int := 0x8000_0000

  predicate IsByte(b: int) { 0 <= b < 256 }

  predicate IsUnit(w: int) { -TWO_TO_31 <= w < TWO_TO_31 }

  // ---------- one unit ----------

  /** The number of bytes for `w`. */
  function Size(w: int): (n: nat)
    ensures n <= 6
  {
    if w < 0 then 0
    else if w >= 0x400_0000 then 6
    else if w >= 0x20_0000 then 5
    else if w >= 0x1_0000 then 4
    else if w >= 0x800 then 3
    else if w >= 0x80 then 2
    else 1
  }

  /** The lead byte of an `n`-byte sequence without its payload: `n` ones from the top. */
  function Mark(n: nat): (m: int)
    requires n <= 8
    ensures 0 <= m <= 255
  {
    if n == 0 then 0 else if n == 1 then 0x80 else if n == 2 then 0xC0 else if n == 3 then 0xE0
    else if n == 4 then 0xF0 else if n == 5 then 0xF8 else if n == 6 then 0xFC else if n == 7 then 0xFE else 0xFF
  }

  /** What is left of `w` above its lowest `k` groups of six bits. */
  function High(w: nat, k: nat): nat {
    if k == 0 then w else High(w / 64, k - 1)
  }

  /** The lowest `k` groups of six bits as continuation bytes. */
  function Low(w: nat, k: nat): (s: seq<int>)
    ensures |s| == k
    ensures forall i :: 0 <= i < k ==> 0x80 <= s[i] < 0xC0
  {
    if k == 0 then [] else Low(w / 64, k - 1) + [0x80 + w % 64]
  }

  function Encode(w: int): (s: seq<int>)
    ensures |s| == Size(w)
  {
    var n := Size(w);
    if n == 0 then [] else if n == 1 then [w] else [Mark(n) + High(w, n - 1)] + Low(w, n - 1)
  }

  datatype Decoded = Bad | Unit(len: nat, w: int)

  /** The number of ones from the top of a lead byte. */
  function Ones(z: int): (n: nat)
    requires 0x80 <= z < 0x100
    ensures 1 <= n <= 8 && Mark(n) <= z && (n < 8 ==> z < Mark(n + 1))
  {
    if z < 0xC0 then 1 else if z < 0xE0 then 2 else if z < 0xF0 then 3 else if z < 0xF8 then 4
    else if z < 0xFC then 5 else if z < 0xFE then 6 else if z < 0xFF then 7 else 8
  }

  /** For eight ones the mask is empty and the whole byte stays. */
  function Payload(z: int): (r: int)
    requires 0x80 <= z < 0x100
    ensures 0 <= r < 256
  {
    var n := Ones(z);
    if n == 8 then z else z - Mark(n)
  }

  /** 32-bit two's complement. */
  function Wrap(x: int): (r: int)
    ensures -TWO_TO_31 <= r < TWO_TO_31
    ensures -TWO_TO_31 <= x < TWO_TO_31 ==> r == x
  {
    var m := x % 0x1_0000_0000;
    if m < TWO_TO_31 then m else m - 0x1_0000_0000
  }

  predicate Continues(b: int) { 0x80 <= b < 0xC0 }

  function Fold(r: int, s: seq<int>): int
    decreases |s|
  {
    if s == [] then r else Fold(Wrap(r * 64 + s[0] - 0x80), s[1..])
  }

  /** What the decoder makes of the bytes it is given, of which it uses as many as the lead byte says. */
  function Decode(s: seq<int>): (d: Decoded)
    requires forall i :: 0 <= i < |s| ==> IsByte(s[i])
    ensures d.Unit? ==> 1 <= d.len <= |s|
  {
    if s == [] then Bad
    else if s[0] < 0x80 then Unit(1, s[0])
    else
      assert IsByte(s[0]);
      var n := Ones(s[0]);
      if n < 2 || |s| < n || Payload(s[0]) == 0 || exists i :: 1 <= i < n && !Continues(s[i]) then Bad
      else Unit(n, Fold(Payload(s[0]), s[1..n]))
  }

  // ---------- the inverse, and exactly where ----------

  /** Units whose encoding has a lead byte with a payload other than zero. */
  predicate Kept(w: int) {
    || 0 <= w < 0x800
    || 0x1000 <= w < 0x1_0000
    || 0x4_0000 <= w < 0x20_0000
    || 0x100_0000 <= w < 0x400_0000
    || 0x4000_0000 <= w < TWO_TO_31
  }

  lemma HighOf(w: nat)
    requires 0x80 <= w < TWO_TO_31
    ensures var n := Size(w);
            2 <= n <= 6 && High(w, n - 1) < Mark(n + 1) - Mark(n) && (High(w, n - 1) == 0 <==> !Kept(w))
  {
    var a := w / 64;
    var b := a / 64;
    var c := b / 64;
    var d := c / 64;
    var e := d / 64;
    assert High(w, 1) == a;
    assert High(w, 2) == High(a, 1) == b;
    assert High(w, 3) == High(a, 2) == High(b, 1) == c;
    assert High(w, 4) == High(a, 3) == High(b, 2) == High(c, 1) == d;
    assert High(w, 5) == High(a, 4) == High(b, 3) == High(c, 2) == High(d, 1) == e;
  }

  lemma {:induction false} FoldConcat(r: int, s: seq<int>, t: seq<int>)
    ensures Fold(r, s + t) == Fold(Fold(r, s), t)
    decreases |s|
  {
    hide Wrap;
    if s == [] {
      assert s + t == t;
    } else {
      assert (s + t)[1..] == s[1..] + t;
      FoldConcat(Wrap(r * 64 + s[0] - 0x80), s[1..], t);
    }
  }

  /** The groups put together again. */
  lemma {:induction false} FoldLow(w: nat, k: nat)
    requires w < TWO_TO_31
    ensures Fold(High(w, k), Low(w, k)) == w
    decreases k
  {
    if k > 0 {
      FoldLow(w / 64, k - 1);
      FoldConcat(High(w, k), Low(w / 64, k - 1), [0x80 + w % 64]);
      assert Fold(w / 64, [0x80 + w % 64]) == Wrap(w / 64 * 64 + w % 64);
    }
  }

  lemma EncodedBytes(w: int)
    requires IsUnit(w)
    ensures forall i :: 0 <= i < |Encode(w)| ==> IsByte(Encode(w)[i])
  {
    hide High, Low;
    if w >= 0x80 { HighOf(w); }
  }

  /** Decoding undoes encoding for exactly the kept units; every other encoding is refused. What follows
      in the input does not matter. */
  lemma DecodeEncode(w: nat, rest: seq<int>)
    requires w < TWO_TO_31
    requires forall i :: 0 <= i < |rest| ==> IsByte(rest[i])
    ensures forall i :: 0 <= i < |Encode(w) + rest| ==> IsByte((Encode(w) + rest)[i])
    ensures Decode(Encode(w) + rest) == if Kept(w) then Unit(Size(w), w) else Bad
  {
    hide High, Low, Fold, Kept;
    EncodedBytes(w);
    var e, n := Encode(w), Size(w);
    if w < 0x80 {
      KeptLow(w);
    } else {
      HighOf(w);
      var s := e + rest;
      LeadByte(n, High(w, n - 1));
      assert s[0] == Mark(n) + High(w, n - 1);
      assert s[1..n] == Low(w, n - 1);
      FoldLow(w, n - 1);
      assert forall i :: 1 <= i < n ==> s[i] == s[1..n][i - 1];
    }
  }

  lemma KeptLow(w: int)
    requires 0 <= w < 0x80
    ensures Kept(w)
  {
  }

  lemma LeadByte(n: nat, h: int)
    requires 2 <= n <= 6 && 0 <= h < Mark(n + 1) - Mark(n)
    ensures 0x80 <= Mark(n) + h < 0x100 && Ones(Mark(n) + h) == n && Payload(Mark(n) + h) == h
  {
  }

  /** `r` with `k` empty groups behind it. */
  function Shift(r: nat, k: nat): nat {
    if k == 0 then r else 64 * Shift(r, k - 1)
  }

  lemma WrapNext(v: nat, c: int, hi: nat)
    requires v < hi && 64 * hi <= TWO_TO_31 && Continues(c)
    ensures var x := Wrap(v * 64 + c - 0x80);
            x == v * 64 + (c - 0x80) && x / 64 == v && 0x80 + x % 64 == c && x < 64 * hi
  {
  }

  /** Groups put together fall apart again, as long as nothing wraps. */
  lemma {:induction false} FoldParts(r: nat, t: seq<int>)
    requires forall i :: 0 <= i < |t| ==> Continues(t[i])
    requires Shift(r + 1, |t|) <= TWO_TO_31
    ensures Shift(r, |t|) <= Fold(r, t) < Shift(r + 1, |t|)
    ensures High(Fold(r, t), |t|) == r && Low(Fold(r, t), |t|) == t
    decreases |t|
  {
    hide Wrap, Continues;
    if t == [] {
      assert Fold(r, t) == r;
    } else {
      hide Fold, High, Low, Shift;
      var k := |t| - 1;
      var front, c := t[..k], t[k];
      ShiftNext(r, k);
      ShiftNext(r + 1, k);
      FoldParts(r, front);
      assert t == front + [c];
      var v := Fold(r, front);
      FoldLast(r, front, c);
      WrapNext(v, c, Shift(r + 1, k));
      LastGroup(Fold(r, t), v, c, k);
    }
  }

  lemma ShiftNext(r: nat, k: nat)
    ensures Shift(r, k + 1) == 64 * Shift(r, k)
  {
  }

  lemma FoldLast(r: int, front: seq<int>, c: int)
    ensures Fold(r, front + [c]) == Wrap(Fold(r, front) * 64 + c - 0x80)
  {
    hide Wrap;
    FoldConcat(r, front, [c]);
    var v := Fold(r, front);
    assert Fold(v, [c]) == Fold(Wrap(v * 64 + c - 0x80), []);
  }

  lemma LastGroup(w: nat, v: nat, c: int, k: nat)
    requires w / 64 == v && 0x80 + w % 64 == c
    ensures High(w, k + 1) == High(v, k) && Low(w, k + 1) == Low(v, k) + [c]
  {
  }

  lemma Shifted(r: nat)
    ensures Shift(r, 1) == 64 * r && Shift(r, 2) == 0x1000 * r && Shift(r, 3) == 0x4_0000 * r
    ensures Shift(r, 4) == 0x100_0000 * r && Shift(r, 5) == 0x4000_0000 * r
  {
    assert Shift(r, 1) == 64 * Shift(r, 0);
    assert Shift(r, 2) == 64 * Shift(r, 1);
    assert Shift(r, 3) == 64 * Shift(r, 2);
    assert Shift(r, 4) == 64 * Shift(r, 3);
    assert Shift(r, 5) == 64 * Shift(r, 4);
  }

  /** The sizes a lead byte can announce, against those its unit needs. */
  lemma SizeOfParts(n: nat, r: nat, w: int)
    requires 2 <= n <= 6 && 0 < r < Mark(n + 1) - Mark(n)
    requires Shift(r, n - 1) <= w < Shift(r + 1, n - 1)
    ensures Size(w) == n <==> !(n == 2 && r == 1)
  {
    Shifted(r);
    Shifted(r + 1);
  }

  lemma PartsFit(n: nat, r: nat)
    requires 2 <= n <= 6 && r < Mark(n + 1) - Mark(n)
    ensures Shift(r + 1, n - 1) <= TWO_TO_31
  {
    Shifted(r + 1);
  }

  lemma LeadOf(z: int)
    requires 0x80 <= z < 0x100
    ensures var n, r := Ones(z), Payload(z);
            && (z == 0xFF <==> n == 8)
            && (n == 7 ==> r == 0)
            && (n <= 6 ==> r < Mark(n + 1) - Mark(n) && z == Mark(n) + r)
            && (z == 0xC1 <==> n == 2 && r == 1)
  {
  }

  /** What the decoder accepts is the encoding of what it returns, but for two lead bytes: 0xC1 stands for
      units that take one byte, and of 0xFF no bit is left out, whatever it is followed by. */
  lemma EncodeDecode(s: seq<int>)
    requires forall i :: 0 <= i < |s| ==> IsByte(s[i])
    ensures var d := Decode(s);
            d.Unit? ==> (Encode(d.w) == s[..d.len] <==> s[0] != 0xC1 && s[0] != 0xFF)
  {
    hide High, Low, Fold, Wrap, Shift, Ones, Payload, Mark, Size;
    var d := Decode(s);
    if d.Unit? && s[0] >= 0x80 {
      assert IsByte(s[0]);
      var n, r, t := Ones(s[0]), Payload(s[0]), s[1..d.len];
      LeadOf(s[0]);
      if n <= 6 {
        PartsFit(n, r);
        FoldParts(r, t);
        SizeOfParts(n, r, d.w);
        assert s[..n] == [s[0]] + t;
      }
    } else if d.Unit? {
      OneByte(s[0]);
      assert s[..1] == [s[0]];
    }
  }

  lemma OneByte(w: int)
    requires 0 <= w < 0x80
    ensures Encode(w) == [w]
  {
  }

  /** Two bytes for a one-byte unit, and eight bytes where no unit takes more than six. */
  lemma Overlong()
    ensures Decode([0xC1, 0x80]) == Unit(2, 0x40) && Encode(0x40) == [0x40]
    ensures var d := Decode([0xFF, 0x80, 0x80, 0x80, 0x80, 0x80, 0x80, 0x80]);
            d.Unit? && d.len == 8 && |Encode(d.w)| <= 6
  {
    hide Fold, Wrap, High, Low;
    TwoBytes();
  }

  lemma TwoBytes()
    ensures Decode([0xC1, 0x80]) == Unit(2, 0x40)
  {
    assert [0xC1, 0x80][1..2] == [0x80];
    assert Fold(1, [0x80]) == Fold(Wrap(64), []);
  }

  // ---------- the loops of the codec ----------

  /** Writes the encoding of `w` to the front of `p` and returns its length: none for a negative unit. */
  method UcToUtf(w: int, p: array<int>) returns (r: nat)
    requires IsUnit(w) && p.Length >= 6
    modifies p
    ensures r == Size(w) && p[..r] == Encode(w) && p[r..] == old(p[r..])
  {
    hide Mark;
    r := Size(w);
    if w < 0 { return 0; }
    if r == 1 {
      p[0] := w;
      return 1;
    }
    var n, v := r, w;
    assert p[r..r] == [];
    while n > 1
      invariant 1 <= n <= r && 0 <= v
      invariant High(w, r - 1) == High(v, n - 1)
      invariant Low(w, r - 1) == Low(v, n - 1) + p[n..r]
      invariant p[r..] == old(p[r..])
    {
      n := n - 1;
      p[n] := v % 64 + 0x80;
      assert p[n..r] == [p[n]] + p[n + 1..r];
      v := v / 64;
    }
    p[0] := Mark(r) + v;
    assert p[..r] == [p[0]] + p[1..r];
  }

  predicate BitSet(z: int, q: int) { q != 0 && z / q % 2 == 1 }

  /** The mask behind `n` ones: one bit, or none left. */
  function Mask(n: nat): (q: nat)
    requires 1 <= n <= 8
    ensures n < 8 ==> q > 0
  {
    if n == 8 then 0 else Mark(n + 1) - Mark(n)
  }

  lemma MaskStep(n: nat, z: int)
    requires 1 <= n <= 8 && Mark(n) <= z < 0x100
    ensures n < 8 ==> Mask(n + 1) == Mask(n) / 2 && (BitSet(z, Mask(n)) <==> Mark(n + 1) <= z)
    ensures n == 8 ==> !BitSet(z, Mask(n))
    ensures !BitSet(z, Mask(n)) ==> Ones(z) == n && Payload(z) == if n == 8 then z else z % Mask(n)
  {
  }

  /** Decodes the first unit of `p[from..]`, of which `lim` bytes are there; 0 bytes used means refused. */
  method UtfToUc(p: array<int>, from: nat, lim: nat) returns (used: nat, w: int)
    requires from + lim <= p.Length && forall i :: 0 <= i < p.Length ==> IsByte(p[i])
    ensures var d := Decode(p[from..from + lim]);
            if d.Bad? then used == 0 else used == d.len && w == d.w
  {
    hide Mark, Mask, BitSet, Payload, Ones, Fold, Wrap;
    if lim < 1 { return 0, 0; }
    ghost var s := p[from..from + lim];
    var z := p[from];
    assert s[0] == z && IsByte(z);
    if z < 0x80 { return 1, z; }
    var n, q := 1, 0x40;
    FirstMask(z);
    MaskStep(1, z);
    while BitSet(z, q)
      invariant 1 <= n <= 8 && q == Mask(n) && Mark(n) <= z
      invariant !BitSet(z, q) ==> Ones(z) == n && Payload(z) == if n == 8 then z else z % Mask(n)
      decreases 8 - n
    {
      MaskStep(n, z);
      n, q := n + 1, q / 2;
      MaskStep(n, z);
    }
    if n < 2 || lim < n { return 0, 0; }
    var r := if n == 8 then z else z % q;
    if r == 0 { return 0, 0; }
    var k := 1;
    while k < n
      invariant 1 <= k <= n
      invariant forall i :: 1 <= i < k ==> Continues(s[i])
      invariant Fold(Payload(z), s[1..n]) == Fold(r, s[k..n])
    {
      var c := p[from + k];
      assert s[k] == c;
      if !Continues(c) { return 0, 0; }
      FoldStep(r, s[k..n]);
      assert s[k..n][1..] == s[k + 1..n];
      r := Wrap(r * 64 + c - 0x80);
      k := k + 1;
    }
    FoldEnd(r);
    assert s[n..n] == [];
    return n, r;
  }

  lemma FirstMask(z: int)
    requires 0x80 <= z < 0x100
    ensures Mask(1) == 0x40 && Mark(1) <= z
  {
  }

  lemma FoldStep(r: int, s: seq<int>)
    requires s != []
    ensures Fold(r, s) == Fold(Wrap(r * 64 + s[0] - 0x80), s[1..])
  {
  }

  lemma FoldEnd(r: int)
    ensures Fold(r, []) == r
  {
  }

  // ---------- strings ----------

  predicate AreUnits(ws: seq<int>) { forall i :: 0 <= i < |ws| ==> IsUnit(ws[i]) }

  predicate AreBytes(s: seq<int>) { forall i :: 0 <= i < |s| ==> IsByte(s[i]) }

  function EncodeAll(ws: seq<int>): seq<int> {
    if ws == [] then [] else Encode(ws[0]) + EncodeAll(ws[1..])
  }

  datatype Text = Refused | Units(ws: seq<int>)

  /** A string is refused at the first sequence the decoder refuses, or at a unit above `max`. */
  function DecodeAll(s: seq<int>, max: int): Text
    requires AreBytes(s)
    decreases |s|
  {
    if s == [] then Units([])
    else
      var d := Decode(s);
      if d.Bad? || d.w > max then Refused
      else
        var rest := DecodeAll(s[d.len..], max);
        if rest.Refused? then Refused else Units([d.w] + rest.ws)
  }

  lemma {:induction false} EncodeAllBytes(ws: seq<int>)
    requires AreUnits(ws)
    ensures AreBytes(EncodeAll(ws))
    decreases |ws|
  {
    hide Encode;
    if ws != [] {
      EncodedBytes(ws[0]);
      EncodeAllBytes(ws[1..]);
    }
  }

  predicate AllKept(ws: seq<int>, max: int) { forall i :: 0 <= i < |ws| ==> Kept(ws[i]) && ws[i] <= max }

  /** A string of units comes back through the codec exactly if each unit is kept and below the limit. */
  lemma {:induction false} RoundTrip(ws: seq<int>, max: int)
    requires AreUnits(ws) && forall i :: 0 <= i < |ws| ==> 0 <= ws[i]
    ensures AreBytes(EncodeAll(ws))
    ensures DecodeAll(EncodeAll(ws), max) == if AllKept(ws, max) then Units(ws) else Refused
    decreases |ws|
  {
    hide Encode, Decode, Kept;
    EncodeAllBytes(ws);
    if ws != [] {
      var w, rest := ws[0], EncodeAll(ws[1..]);
      EncodeAllBytes(ws[1..]);
      DecodeEncode(w, rest);
      var s := Encode(w) + rest;
      assert s != [] by { KeptSize(w); }
      RoundTrip(ws[1..], max);
      if Kept(w) && w <= max {
        assert s[Size(w)..] == rest;
        assert [w] + ws[1..] == ws;
        assert AllKept(ws, max) == AllKept(ws[1..], max) by {
          assert forall i :: 1 <= i < |ws| ==> ws[i] == ws[1..][i - 1];
        }
      }
    }
  }

  lemma KeptSize(w: int)
    ensures w >= 0 ==> Size(w) > 0
  {
  }

  /** The string version: everything is encoded, negative units leave nothing. */
  method ConvertString(ws: seq<int>) returns (r: seq<int>)
    requires AreUnits(ws)
    ensures r == EncodeAll(ws)
  {
    hide Encode;
    var buf := new int[16];
    r := [];
    var i := 0;
    while i < |ws|
      invariant 0 <= i <= |ws| && EncodeAll(ws) == r + EncodeAll(ws[i..])
    {
      var k := UcToUtf(ws[i], buf);
      assert ws[i..][0] == ws[i] && ws[i..][1..] == ws[i + 1..];
      r := r + buf[..k];
      i := i + 1;
    }
    assert ws[i..] == [];
  }

  /** A copy to `r[at..]` that stays below `room`; gives the new end. */
  method PutWithin(r: array<int>, at: nat, buf: array<int>, k: nat, room: nat) returns (end: nat)
    requires r != buf && at + k <= room <= r.Length && k <= buf.Length
    modifies r
    ensures end == at + k && r[..end] == old(r[..at]) + buf[..k] && r[room..] == old(r[room..])
  {
    forall i | 0 <= i < k { r[at + i] := buf[i]; }
    end := at + k;
  }

  /** How many leading units fit into `room` bytes as wholes. */
  function Fitting(ws: seq<int>, room: int): (k: nat)
    ensures k <= |ws|
  {
    if ws == [] || |Encode(ws[0])| > room then 0 else 1 + Fitting(ws[1..], room - |Encode(ws[0])|)
  }

  /** The longest prefix that fits: one more unit would not. */
  lemma {:induction false} FittingIsLongest(ws: seq<int>, room: nat)
    ensures var k := Fitting(ws, room);
            && |EncodeAll(ws[..k])| <= room
            && (k < |ws| ==> |EncodeAll(ws[..k + 1])| > room)
    decreases |ws|
  {
    hide Encode;
    var k := Fitting(ws, room);
    if k > 0 {
      FittingIsLongest(ws[1..], room - |Encode(ws[0])|);
      assert ws[..k][1..] == ws[1..][..k - 1];
      if k < |ws| { assert ws[..k + 1][1..] == ws[1..][..k]; }
    } else if ws != [] {
      assert ws[..1][1..] == [];
    }
  }

  /** The bounded version stops at the first unit that does not fit and returns the end of what it wrote. */
  method ConvertBounded(ws: seq<int>, r: array<int>, room: nat) returns (end: nat)
    requires AreUnits(ws) && room <= r.Length
    modifies r
    ensures end <= room && r[..end] == EncodeAll(ws[..Fitting(ws, room)])
    ensures r[room..] == old(r[room..])
  {
    hide Encode;
    var buf := new int[16];
    end := 0;
    var i := 0;
    while i < |ws|
      invariant 0 <= i <= |ws| && end <= room
      invariant Fitting(ws, room) == i + Fitting(ws[i..], room - end)
      invariant r[..end] == EncodeAll(ws[..i]) && r[room..] == old(r[room..])
    {
      var k := UcToUtf(ws[i], buf);
      assert ws[i..][0] == ws[i] && ws[i..][1..] == ws[i + 1..];
      if room - end < k { break; }
      end := PutWithin(r, end, buf, k, room);
      EncodeOneMore(ws, i);
      i := i + 1;
    }
    assert Fitting(ws, room) == i;
  }

  lemma EncodeOneMore(ws: seq<int>, i: nat)
    requires i < |ws|
    ensures EncodeAll(ws[..i + 1]) == EncodeAll(ws[..i]) + Encode(ws[i])
  {
    hide Encode;
    EncodeConcat(ws[..i], [ws[i]]);
    assert ws[..i] + [ws[i]] == ws[..i + 1];
  }

  lemma {:induction false} EncodeConcat(a: seq<int>, b: seq<int>)
    ensures EncodeAll(a + b) == EncodeAll(a) + EncodeAll(b)
    decreases |a|
  {
    hide Encode;
    if a == [] {
      assert a + b == b;
    } else {
      assert (a + b)[1..] == a[1..] + b;
      EncodeConcat(a[1..], b);
    }
  }

  /** Those units that still fit when their turn comes, also behind one that did not. */
  function Greedy(ws: seq<int>, room: int): (s: seq<int>)
    ensures |s| <= room || |s| == 0
  {
    if ws == [] then []
    else if |Encode(ws[0])| <= room then Encode(ws[0]) + Greedy(ws[1..], room - |Encode(ws[0])|)
    else Greedy(ws[1..], room)
  }

  /** With room for everything nothing is left out. */
  lemma {:induction false} GreedyIsAll(ws: seq<int>, room: int)
    requires |EncodeAll(ws)| <= room
    ensures Greedy(ws, room) == EncodeAll(ws)
    decreases |ws|
  {
    hide Encode;
    if ws != [] { GreedyIsAll(ws[1..], room - |Encode(ws[0])|); }
  }

  /** The required size, or -1 for a negative unit; if the size is within the room, the full encoding is there. */
  method TryConvert(ws: seq<int>, r: array<int>, room: nat) returns (size: int)
    requires AreUnits(ws) && room <= r.Length
    modifies r
    ensures size == if exists i :: 0 <= i < |ws| && ws[i] < 0 then -1 else |EncodeAll(ws)|
    ensures size >= 0 ==> r[..|Greedy(ws, room)|] == Greedy(ws, room)
    ensures 0 <= size <= room ==> r[..size] == EncodeAll(ws)
    ensures r[room..] == old(r[room..])
  {
    hide Encode, Trying;
    var buf := new int[16];
    size := 0;
    var i, end := 0, 0;
    TryingStarts(ws, room, r[..end]);
    while i < |ws|
      invariant 0 <= i <= |ws| && 0 <= end <= room && 0 <= size
      invariant Trying(ws, room, i, size, r[..end])
      invariant r[room..] == old(r[room..])
    {
      var k := UcToUtf(ws[i], buf);
      KeptSize(ws[i]);
      if k == 0 { return -1; }
      TryingGoesOn(ws, room, i, size, r[..end]);
      size := size + k;
      if room - end >= k { end := PutWithin(r, end, buf, k, room); }
      i := i + 1;
    }
    TryingEnds(ws, room, size, r[..end]);
  }

  /** `i` units are dealt with: they need `size` bytes, and `s` was written for them. */
  ghost predicate Trying(ws: seq<int>, room: int, i: nat, size: int, s: seq<int>) {
    && i <= |ws| && (forall j :: 0 <= j < i ==> ws[j] >= 0)
    && |EncodeAll(ws)| == size + |EncodeAll(ws[i..])|
    && Greedy(ws, room) == s + Greedy(ws[i..], room - |s|)
  }

  lemma TryingStarts(ws: seq<int>, room: int, s: seq<int>)
    requires s == []
    ensures Trying(ws, room, 0, 0, s)
  {
    assert ws[0..] == ws;
  }

  lemma TryingGoesOn(ws: seq<int>, room: int, i: nat, size: int, s: seq<int>)
    requires i < |ws| && ws[i] >= 0 && Trying(ws, room, i, size, s)
    ensures var e := Encode(ws[i]);
            Trying(ws, room, i + 1, size + |e|, if |e| <= room - |s| then s + e else s)
  {
    hide Encode;
    var rest, e := ws[i..], Encode(ws[i]);
    assert rest[0] == ws[i] && rest[1..] == ws[i + 1..];
    if |e| <= room - |s| {
      assert s + (e + Greedy(ws[i + 1..], room - |s| - |e|)) == s + e + Greedy(ws[i + 1..], room - |s| - |e|);
    }
  }

  lemma TryingEnds(ws: seq<int>, room: int, size: int, s: seq<int>)
    requires Trying(ws, room, |ws|, size, s)
    ensures size == |EncodeAll(ws)| && s == Greedy(ws, room) && (forall j :: 0 <= j < |ws| ==> ws[j] >= 0)
    ensures size <= room ==> s == EncodeAll(ws)
  {
    hide Encode;
    assert ws[|ws|..] == [];
    if size <= room { GreedyIsAll(ws, room); }
  }

  /** Decodes a whole string, or nothing. */
  method TryDecode(p: array<int>, max: int) returns (ok: bool, r: seq<int>)
    requires forall i :: 0 <= i < p.Length ==> IsByte(p[i])
    ensures AreBytes(p[..])
    ensures DecodeAll(p[..], max) == if ok then Units(r) else Refused
  {
    hide Decode;
    ok, r := true, [];
    var i, n := 0, p.Length;
    assert p[0..n] == p[..];
    NothingBehind(DecodeAll(p[..], max));
    while i < n
      invariant 0 <= i <= n && AreBytes(p[i..n])
      invariant DecodeAll(p[..], max) == Behind(r, DecodeAll(p[i..n], max))
    {
      var k, w := UtfToUc(p, i, n - i);
      if k == 0 || w > max { return false, r; }
      assert p[i..n][k..] == p[i + k..n];
      ghost var rest := DecodeAll(p[i + k..n], max);
      if rest.Units? { assert r + ([w] + rest.ws) == r + [w] + rest.ws; }
      i := i + k;
      r := r + [w];
    }
    assert p[n..n] == [];
  }

  function Least(a: nat, b: nat): (m: nat)
    ensures m <= a && m <= b
  {
    if a < b then a else b
  }

  /** Decodes into at most `room` places and gives the number of units there are, or -1. */
  method TryDecodeInto(p: array<int>, max: int, r: array<int>, room: nat) returns (size: int)
    requires p != r && room <= r.Length && forall i :: 0 <= i < p.Length ==> IsByte(p[i])
    modifies r
    ensures AreBytes(p[..])
    ensures match DecodeAll(p[..], max)
            case Refused => size == -1
            case Units(ws) => size == |ws| && r[..Least(|ws|, room)] == ws[..Least(|ws|, room)]
    ensures r[room..] == old(r[room..])
  {
    hide Decode, DecodeAll;
    size := 0;
    ghost var done: seq<int> := [];
    var i, n := 0, p.Length;
    assert p[0..n] == p[..];
    NothingBehind(DecodeAll(p[..], max));
    while i < n
      invariant 0 <= i <= n && AreBytes(p[i..n]) && p[..] == old(p[..])
      invariant DecodeAll(p[..], max) == Behind(done, DecodeAll(p[i..n], max))
      invariant size == |done| && r[..Least(|done|, room)] == done[..Least(|done|, room)]
      invariant r[room..] == old(r[room..])
    {
      DecodeStep(p[i..n], max);
      var k, w := UtfToUc(p, i, n - i);
      if k == 0 || w > max { return -1; }
      assert p[i..n][k..] == p[i + k..n];
      BehindMore(done, w, DecodeAll(p[i + k..n], max));
      if size < room { r[size] := w; }
      done := done + [w];
      i, size := i + k, size + 1;
    }
    assert p[n..n] == [];
    DecodeNothing(max);
  }

  lemma DecodeStep(s: seq<int>, max: int)
    requires AreBytes(s) && s != []
    ensures var d := Decode(s);
            && (d.Unit? ==> AreBytes(s[d.len..]))
            && DecodeAll(s, max) == if d.Bad? || d.w > max then Refused else Behind([d.w], DecodeAll(s[d.len..], max))
  {
    hide Decode;
  }

  lemma DecodeNothing(max: int)
    ensures DecodeAll([], max) == Units([])
  {
  }

  lemma BehindMore(done: seq<int>, w: int, t: Text)
    ensures Behind(done, Behind([w], t)) == Behind(done + [w], t)
  {
    if t.Units? { assert done + ([w] + t.ws) == done + [w] + t.ws; }
  }

  lemma NothingBehind(t: Text)
    ensures Behind([], t) == t
  {
    if t.Units? { assert [] + t.ws == t.ws; }
  }

  ghost function Behind(r: seq<int>, t: Text): Text {
    if t.Refused? then Refused else Units(r + t.ws)
  }
}
