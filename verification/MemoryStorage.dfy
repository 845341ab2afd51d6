/** The block list behind a memory stream: a flat byte string kept in blocks of N bytes. */
module MemoryStorage {

  /** `data` laid over `s` at `at`. */
  function Splice<T>(s: seq<T>, at: nat, data: seq<T>): seq<T>
    requires at + |data| <= |s|
  {
    s[..at] + data + s[at + |data|..]
  }

  lemma SpliceTwice<T>(s: seq<T>, at: nat, a: seq<T>, b: seq<T>)
    requires at + |a| + |b| <= |s|
    ensures Splice(Splice(s, at, a), at + |a|, b) == Splice(s, at, a + b)
  {}

  // ---------- blocks as one string ----------

  predicate AllOf(parts: seq<string>, n: nat) { forall i :: 0 <= i < |parts| ==> |parts[i]| == n }

  function Concat(parts: seq<string>): string {
    if parts == [] then "" else Concat(parts[..|parts| - 1]) + parts[|parts| - 1]
  }

  /** Where block `k` begins. */
  function Start(k: nat, n: nat): nat { k * n }

  lemma StartNext(k: nat, n: nat)
    ensures Start(k + 1, n) == Start(k, n) + n
  {}

  lemma {:induction false} StartMono(a: nat, b: nat, n: nat)
    requires a <= b
    ensures Start(a, n) <= Start(b, n)
    ensures a < b ==> Start(a, n) + n <= Start(b, n)
    decreases b
  {
    if a < b {
      StartNext(b - 1, n);
      StartMono(a, b - 1, n);
    }
  }

  /** The block an offset falls into, and the offset inside it. */
  function BlockAt(offset: nat, n: nat): nat
    requires n > 0
  {
    offset / n
  }

  function PadAt(offset: nat, n: nat): (pad: nat)
    requires n > 0
    ensures pad < n
  {
    offset % n
  }

  lemma StartOf(offset: nat, n: nat)
    requires n > 0
    ensures Start(BlockAt(offset, n), n) + PadAt(offset, n) == offset
  {}

  lemma SubSlice<T>(s: seq<T>, at: nat, n: nat, pad: nat, len: nat)
    requires at + n <= |s| && pad + len <= n
    ensures s[at..at + n][pad..pad + len] == s[at + pad..at + pad + len]
  {
    var a, b := s[at..at + n][pad..pad + len], s[at + pad..at + pad + len];
    assert forall i :: 0 <= i < len ==> a[i] == b[i];
  }

  lemma {:induction false} ConcatLength(parts: seq<string>, n: nat)
    requires AllOf(parts, n)
    ensures |Concat(parts)| == Start(|parts|, n)
    decreases |parts|
  {
    hide Start;
    if parts != [] {
      ConcatLength(parts[..|parts| - 1], n);
      StartNext(|parts| - 1, n);
    } else {
      StartZero(n);
    }
  }

  lemma StartZero(n: nat)
    ensures Start(0, n) == 0
  {}

  /** Block `k` stands at its start. */
  lemma {:induction false} ConcatBlock(parts: seq<string>, n: nat, k: nat)
    requires AllOf(parts, n) && k < |parts|
    ensures Start(k, n) + n <= |Concat(parts)| && Concat(parts)[Start(k, n)..Start(k, n) + n] == parts[k]
    decreases |parts|
  {
    hide Start;
    ConcatLength(parts, n);
    StartMono(k, |parts|, n);
    var front := parts[..|parts| - 1];
    ConcatLength(front, n);
    if k < |parts| - 1 {
      ConcatBlock(front, n, k);
      assert front[k] == parts[k];
      StartMono(k, |parts| - 1, n);
    } else {
      StartNext(k, n);
    }
  }

  /** Writing inside one block is writing into the string. */
  lemma {:induction false} ConcatSplice(parts: seq<string>, n: nat, k: nat, pad: nat, data: string)
    requires AllOf(parts, n) && k < |parts| && pad + |data| <= n
    ensures Start(k, n) + pad + |data| <= |Concat(parts)|
    ensures Concat(parts[k := Splice(parts[k], pad, data)]) == Splice(Concat(parts), Start(k, n) + pad, data)
    decreases |parts|
  {
    hide Start;
    var last := |parts| - 1;
    var front := parts[..last];
    var parts' := parts[k := Splice(parts[k], pad, data)];
    ConcatLength(parts, n);
    ConcatLength(front, n);
    StartMono(k, |parts|, n);
    if k < last {
      ConcatSplice(front, n, k, pad, data);
      StartMono(k, last, n);
      assert parts'[..last] == front[k := Splice(front[k], pad, data)];
    } else {
      assert parts'[..last] == front;
    }
  }

  lemma ConcatSnoc(parts: seq<string>, block: string)
    ensures Concat(parts + [block]) == Concat(parts) + block
  {
    assert (parts + [block])[..|parts|] == parts;
  }

  method Memcpy(dst: array<char>, at: nat, src: string)
    requires at + |src| <= dst.Length
    modifies dst
    ensures dst[..] == Splice(old(dst[..]), at, src)
  {
    for i := 0 to |src|
      invariant forall k :: 0 <= k < i ==> dst[at + k] == src[k]
      invariant dst[..at] == old(dst[..at]) && dst[at + i..] == old(dst[at + i..])
    {
      dst[at + i] := src[i];
    }
    assert dst[at..at + |src|] == src;
    assert dst[..] == dst[..at] + dst[at..at + |src|] + dst[at + |src|..];
  }

  class Storage {
    const N: nat
    var blocks: seq<array<char>>

    ghost predicate Valid()
      reads this
    {
      && N > 0
      && (forall k :: 0 <= k < |blocks| ==> blocks[k].Length == N)
      && (forall j, k :: 0 <= j < k < |blocks| ==> blocks[j] != blocks[k])
    }

    ghost function Parts(): seq<string>
      reads this, blocks
    {
      seq(|blocks|, i requires 0 <= i < |blocks| reads this, blocks => blocks[i][..])
    }

    /** Everything the blocks hold, as one string. */
    ghost function Flat(): string
      reads this, blocks
    {
      Concat(Parts())
    }

    constructor (n: nat)
      requires n > 0
      ensures Valid() && N == n && blocks == []
    {
      N, blocks := n, [];
    }

    /** One more block, with whatever the allocator left in it. */
    method Grow()
      requires Valid()
      modifies this
      ensures Valid() && |blocks| == |old(blocks)| + 1 && blocks[..|old(blocks)|] == old(blocks)
      ensures fresh(blocks[|old(blocks)|])
      ensures |Parts()[|old(blocks)|]| == N && Parts() == old(Parts()) + [Parts()[|old(blocks)|]]
    {
      var block := new char[N];
      blocks := blocks + [block];
    }

    /** Bytes put into block `k` at `pad`. */
    method Put(k: nat, pad: nat, data: string)
      requires Valid() && k < |blocks| && pad + |data| <= N
      modifies blocks[k]
      ensures Valid() && Parts() == old(Parts())[k := Splice(old(Parts())[k], pad, data)]
    {
      Memcpy(blocks[k], pad, data);
    }

    /** What a piece of one write does to the whole. */
    lemma PutFlat(before: seq<string>, k: nat, pad: nat, piece: string, base: string, offset: nat, done: string)
      requires AllOf(before, N) && k < |before| && pad + |piece| <= N
      requires offset + |done| == Start(k, N) + pad && offset + |done| <= |base|
      requires Concat(before) == Splice(base, offset, done)
      ensures offset + |done + piece| <= |base|
      ensures Concat(before[k := Splice(before[k], pad, piece)]) == Splice(base, offset, done + piece)
    {
      hide Start;
      ConcatSplice(before, N, k, pad, piece);
      SpliceTwice(base, offset, done, piece);
    }

    /** The bytes that fit behind `pad` into block `it`. */
    method Piece(it: nat, pad: nat, data: string, written: nat, ghost base: string, ghost offset: nat)
      returns (done: nat)
      requires Valid() && it < |blocks| && pad < N && written < |data|
      requires Start(it, N) + pad == offset + written <= |base|
      requires Flat() == Splice(base, offset, data[..written])
      modifies blocks[it]
      ensures Valid() && written < done <= |data| && offset + done <= |base|
      ensures done == |data| || done - written == N - pad
      ensures Flat() == Splice(base, offset, data[..done])
    {
      hide Concat, Splice, Start;
      done := written + Min(N - pad, |data| - written);
      PutFlat(Parts(), it, pad, data[written..done], base, offset, data[..written]);
      Put(it, pad, data[written..done]);
      assert data[..written] + data[written..done] == data[..done];
    }

    /** The first write loop, over the blocks there are; it stops when they or the bytes run out. */
    method Overwrite(offset: nat, data: string, ghost base: string) returns (written: nat)
      requires Valid() && data != "" && base == Flat() && offset < |base|
      modifies blocks
      ensures Valid() && 0 < written <= |data| && offset + written <= |base| == |Flat()|
      ensures written < |data| ==> offset + written == |base|
      ensures Flat() == Splice(base, offset, data[..written])
    {
      hide Concat, Start, Splice, BlockAt, PadAt;
      ConcatLength(Parts(), N);
      var it: nat, pad: nat := BlockAt(offset, N), PadAt(offset, N);
      StartOf(offset, N);
      written := 0;
      if it >= |blocks| { StartMono(|blocks|, it, N); }
      SpliceNothing(base, offset, data);
      while it < |blocks| && written < |data|
        invariant Valid() && it <= |blocks| && pad < N && written <= |data|
        invariant written < |data| ==> Start(it, N) + pad == offset + written && (it == |blocks| ==> pad == 0)
        invariant offset + written <= |base|
        invariant written == 0 ==> it < |blocks|
        invariant Flat() == Splice(base, offset, data[..written])
        decreases |data| - written
      {
        written := Piece(it, pad, data, written, base, offset);
        StartNext(it, N);
        if written < |data| { it, pad := it + 1, 0; }
      }
      ConcatLength(Parts(), N);
    }

    /** The second write loop: what is left goes into new blocks. */
    method Extend(offset: nat, data: string, start: nat, ghost base0: string) returns (ghost base: string)
      requires Valid() && start <= |data| && offset + start <= |base0| == |Flat()|
      requires start < |data| ==> offset + start == |base0|
      requires Flat() == Splice(base0, offset, data[..start])
      modifies this, blocks
      ensures Valid() && fresh(set b | b in blocks && b !in old(blocks))
      ensures |base0| <= |base| && base[..|base0|] == base0
      ensures offset + |data| <= |base| && Flat() == Splice(base, offset, data)
    {
      hide Concat, Start, Splice;
      var written := start;
      base := base0;
      ConcatLength(Parts(), N);
      while written < |data|
        invariant Valid() && fresh(set b | b in blocks && b !in old(blocks))
        invariant start <= written <= |data| && offset + written <= |base| == Start(|blocks|, N)
        invariant written < |data| ==> offset + written == |base|
        invariant |base0| <= |base| && base[..|base0|] == base0
        invariant Flat() == Splice(base, offset, data[..written])
        decreases |data| - written
      {
        ghost var before := Parts();
        Grow();
        var k := |blocks| - 1;
        ghost var block := Parts()[k];
        ConcatSnoc(before, block);
        StartNext(k, N);
        SpliceGrows(base, offset, data[..written], block);
        base := base + block;
        written := Piece(k, 0, data, written, base, offset);
      }
      assert data[..written] == data;
    }

    /** The bytes go over what the blocks hold from `offset` on, and then into new blocks. A write
        that starts behind the last block is refused. */
    method Write(offset: nat, data: string) returns (written: nat)
      requires Valid() && data != ""
      modifies this, blocks
      ensures Valid() && fresh(set b | b in blocks && b !in old(blocks))
      ensures offset > |old(Flat())| ==> written == 0 && Flat() == old(Flat())
      ensures offset <= |old(Flat())| ==>
                && written == |data| && |old(Flat())| <= |Flat()| && offset + |data| <= |Flat()|
                && Flat() == Splice(old(Flat()) + Flat()[|old(Flat())|..], offset, data)
    {
      hide Concat, Start, Splice;
      ConcatLength(Parts(), N);
      ghost var old0 := Flat();
      if Start(|blocks|, N) < offset { return 0; }
      if Start(|blocks|, N) == offset {
        Grow();
        ConcatSnoc(old(Parts()), Parts()[|old(blocks)|]);
      }
      ghost var base := Flat();
      written := Overwrite(offset, data, base);
      base := Extend(offset, data, written, base);
      written := |data|;
      SpliceTail(old0, base, offset, data);
    }

    /** The read loop: as many bytes as the blocks have from `offset` on, at most `size`. */
    method Read(offset: nat, size: nat) returns (data: string)
      requires Valid() && size > 0
      ensures data == if offset < |Flat()| then Flat()[offset..Min(offset + size, |Flat()|)] else ""
    {
      hide Concat, Start, BlockAt, PadAt;
      ConcatLength(Parts(), N);
      data := "";
      var it: nat, pad: nat, left: nat := BlockAt(offset, N), PadAt(offset, N), size;
      StartOf(offset, N);
      if it >= |blocks| { StartMono(|blocks|, it, N); return; }
      StartMono(it, |blocks|, N);
      while it < |blocks| && left > 0
        invariant it <= |blocks| && pad < N && left + |data| == size
        invariant left > 0 ==> Start(it, N) + pad == offset + |data|
        invariant it == |blocks| ==> pad == 0
        invariant offset + |data| <= |Flat()| && data == Flat()[offset..offset + |data|]
        decreases left
      {
        ghost var parts := Parts();
        ConcatBlock(parts, N, it);
        StartNext(it, N);
        var n := Min(N - pad, left);
        var piece := blocks[it][pad..pad + n];
        SubSlice(Flat(), Start(it, N), N, pad, n);
        assert Parts()[it] == blocks[it][..];
        ReadMore(Flat(), offset, data, piece);
        data := data + piece;
        left := left - n;
        if left > 0 { it, pad := it + 1, 0; }
      }
    }
  }

  lemma ReadMore(s: string, offset: nat, data: string, piece: string)
    requires offset + |data| + |piece| <= |s|
    requires data == s[offset..offset + |data|] && piece == s[offset + |data|..offset + |data| + |piece|]
    ensures data + piece == s[offset..offset + |data + piece|]
  {}

  lemma SpliceNothing(base: string, at: nat, data: string)
    requires at <= |base|
    ensures Splice(base, at, data[..0]) == base
  {}

  lemma SpliceGrows<T>(base: seq<T>, at: nat, data: seq<T>, more: seq<T>)
    requires at + |data| <= |base|
    ensures Splice(base, at, data) + more == Splice(base + more, at, data)
  {}

  /** What was there before a write is there after it, but for the bytes written. */
  lemma SpliceTail<T>(s: seq<T>, base: seq<T>, at: nat, data: seq<T>)
    requires |s| <= |base| && base[..|s|] == s && at + |data| <= |base| && at <= |s|
    ensures var r := Splice(base, at, data); |r| == |base| && r == Splice(s + r[|s|..], at, data)
  {}

  function Min(a: nat, b: nat): nat { if a < b then a else b }
}
