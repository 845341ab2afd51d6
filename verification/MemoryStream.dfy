/** The block-list memory stream, against a flat byte string with a cursor. */
module MemoryStream {
  import opened MemoryStorage

  const TWO_TO_32: nat := 0x1_0000_0000

  // ---------- the flat stream ----------

  /** A byte string, a cursor in it, and whether the last transfer went well. */
  datatype Flat = Flat(bytes: string, pos: nat, good: bool) {
    predicate Ok() { pos <= |bytes| }

    /** A write appends; anywhere but at the end it is refused. */
    function Write(data: string): (Flat, nat) {
      if pos != |bytes| then (this.(good := false), 0)
      else if data == "" then (this, 0)
      else (Flat(bytes + data, |bytes| + |data|, true), |data|)
    }

    /** A read takes what is asked for or what is left; `left` is cut to 32 bits on the way. */
    function Read(size: nat): (Flat, string)
      requires Ok()
    {
      var n := Min(size, (|bytes| - pos) % TWO_TO_32);
      if n > 0 then (Flat(bytes, pos + n, true), bytes[pos..pos + n]) else (this, "")
    }

    /** A seek moves anywhere between the beginning and the end, or not at all. */
    function Seek(to: int, whence: Whence): (Flat, bool) {
      var at := Target(to, whence);
      if whence.Unknown? || at < 0 || at > |bytes| then (this, false) else (this.(pos := at), true)
    }

    function Target(to: int, whence: Whence): int {
      match whence case Cur => pos + to case End => |bytes| + to case _ => to
    }
  }

  datatype Whence = Set | Cur | End | Unknown

  // ---------- the stream ----------

  /** A receiver that takes at most `room` bytes more. */
  class Sink {
    var got: string
    var room: nat

    ghost function Has(): Sunk
      reads this
    {
      Sunk(got, room)
    }

    constructor (room: nat)
      ensures got == "" && this.room == room
    {
      got, this.room := "", room;
    }

    method Write(data: string) returns (written: nat)
      modifies this
      ensures written == Min(|data|, old(room)) && room == old(room) - written && got == old(got) + data[..written]
    {
      written := Min(|data|, room);
      got, room := got + data[..written], room - written;
    }
  }

  class DynamicMemoryStream {
    const storage: Storage
    var good: bool
    var size: nat
    var offset: nat

    ghost predicate Valid()
      reads this, storage, storage.blocks
    {
      storage.Valid() && offset <= size <= |storage.Flat()|
    }

    /** The stream as a flat string with a cursor. */
    ghost function View(): Flat
      reads this, storage, storage.blocks
      requires Valid()
    {
      Flat(storage.Flat()[..size], offset, good)
    }

    constructor (blockSize: nat)
      requires blockSize > 0
      ensures Valid() && View() == Flat("", 0, true) && fresh(storage) && storage.blocks == []
    {
      storage := new Storage(blockSize);
      good, size, offset := true, 0, 0;
    }

    method Clear()
      requires Valid()
      modifies this
      ensures Valid() && View() == Flat("", 0, true)
    {
      size, offset, good := 0, 0, true;
    }

    method Write(data: string) returns (written: nat)
      requires Valid()
      modifies this, storage, storage.blocks
      ensures Valid() && fresh(set b | b in storage.blocks && b !in old(storage.blocks))
      ensures (View(), written) == old(View()).Write(data)
    {
      hide Storage.Flat, Storage.Valid;
      if size != offset {
        good := false;
        return 0;
      }
      written := |data|;
      if |data| > 0 {
        written := Extend(data);
        size := written + size;
        offset := size;
        good := true;
      }
    }

    method Extend(data: string) returns (written: nat)
      requires Valid() && size == offset && data != ""
      modifies storage, storage.blocks
      ensures storage.Valid() && fresh(set b | b in storage.blocks && b !in old(storage.blocks))
      ensures written == |data| && size + |data| <= |storage.Flat()|
      ensures storage.Flat()[..size + |data|] == old(storage.Flat())[..size] + data
    {
      hide Storage.Flat;
      ghost var before := storage.Flat();
      written := storage.Write(offset, data);
      AppendView(before, storage.Flat(), offset, data);
    }

    method Read(count: nat) returns (data: string)
      requires Valid()
      modifies this
      ensures Valid() && (View(), data) == old(View()).Read(count)
    {
      hide Concat;
      data := "";
      var n := Min(count, (size - offset) % TWO_TO_32);
      RoomFits(size - offset);
      if n > 0 {
        data := ReadAt(n);
        offset := offset + |data|;
        good := true;
      }
    }

    method ReadAt(n: nat) returns (data: string)
      requires Valid() && 0 < n && offset + n <= size
      ensures data == View().bytes[offset..offset + n]
    {
      hide Concat;
      data := storage.Read(offset, n);
      SubSlice(storage.Flat(), 0, size, offset, n);
    }

    method Seek(to: int, whence: Whence) returns (done: bool, position: nat)
      requires Valid()
      modifies this`offset
      ensures Valid() && (View(), done) == old(View()).Seek(to, whence)
      ensures done ==> position == View().pos
    {
      var at := to;
      position := 0;
      match whence {
        case Cur => at := offset + to;
        case End => at := size + to;
        case Set =>
        case Unknown => return false, position;
      }
      if at < 0 || at > size { return false, position; }
      offset := at;
      return true, offset;
    }

    method Tell() returns (r: nat)
      requires Valid()
      ensures r == View().pos
    {
      r := offset;
    }

    method Size() returns (r: nat)
      requires Valid()
      ensures r == |View().bytes|
    {
      r := size;
    }

    /** A piece of block `it`, offered to the sink. */
    method Send(output: Sink, it: nat, pad: nat, n: nat) returns (written: nat)
      requires Valid() && it < |storage.blocks| && pad + n <= storage.N
      modifies output
      ensures written == Min(n, old(output.room)) && output.room == old(output.room) - written
      ensures var from := Start(it, storage.N) + pad;
              from + n <= |storage.Flat()| && output.got == old(output.got) + storage.Flat()[from..from + written]
    {
      hide Concat, Start;
      ghost var flat := storage.Flat();
      ConcatBlock(storage.Parts(), storage.N, it);
      SubSlice(flat, Start(it, storage.N), storage.N, pad, n);
      assert storage.Parts()[it] == storage.blocks[it][..];
      var piece := storage.blocks[it][pad..pad + n];
      written := output.Write(piece);
      PieceTaken(flat, Start(it, storage.N) + pad, n, piece, written);
    }

    /** One turn of CopyTo: the next piece goes out, and `more` says whether to go on with the next block. */
    method CopyBlock(output: Sink, count: nat, it: nat, pad: nat, done: nat, ghost had: Sunk)
      returns (written: nat, more: bool)
      requires Valid() && it < |storage.blocks|
      requires Copying(storage.Flat(), storage.N, |storage.blocks|, offset, count, it, pad, done, had, output.Has())
      modifies output
      ensures written <= count
      ensures if more then Copying(storage.Flat(), storage.N, |storage.blocks|, offset, count, it + 1, 0, written, had,
                                   output.Has())
              else Drained(storage.Flat(), offset, count, written, had, output.Has())
    {
      hide Concat, Start, Copying;
      CopyTurn(storage.Flat(), storage.N, |storage.blocks|, offset, count, it, pad, done, had, output.Has());
      var n := Min(storage.N - pad, count - done);
      var w := Send(output, it, pad, n);
      written := done + w;
      more := w == n && written != count;
    }

    /** CopyTo hands whole block pieces to the sink and does not move the cursor. It stops when the sink takes
        less than it is offered, and goes by the blocks: what it copies is the stream's contents exactly as
        long as no more is asked for than remains of them. */
    method CopyTo(output: Sink, count: nat) returns (written: nat)
      requires Valid()
      modifies output
      ensures written == Min(Min(count, |storage.Flat()| - offset), old(output.room))
      ensures output.got == old(output.got) + storage.Flat()[offset..offset + written]
      ensures count <= size - offset ==> output.got == old(output.got) + View().bytes[offset..offset + written]
    {
      hide Concat, Start, BlockAt, PadAt, Copying;
      ghost var flat, blocks, had := storage.Flat(), |storage.blocks|, output.Has();
      ConcatLength(storage.Parts(), storage.N);
      var it: nat, pad: nat := BlockAt(offset, storage.N), PadAt(offset, storage.N);
      written := 0;
      CopyingStarts(flat, storage.N, blocks, offset, count, it, pad, had);
      var more := true;
      while more && it < |storage.blocks|
        invariant written <= count
        invariant more ==> Copying(flat, storage.N, blocks, offset, count, it, pad, written, had, output.Has())
        invariant !more ==> Drained(flat, offset, count, written, had, output.Has())
        decreases |storage.blocks| - it
      {
        written, more := CopyBlock(output, count, it, pad, written, had);
        it, pad := it + 1, 0;
      }
      if more { CopyingEnds(flat, storage.N, blocks, offset, count, it, pad, written, had, output.Has()); }
      if count <= size - offset { SubSlice(flat, 0, size, offset, written); }
    }
  }

  /** What a sink has got and what room it has left. */
  datatype Sunk = Sunk(got: string, room: nat)

  /** The loop of CopyTo: `written` bytes have gone from the flat content to the sink. */
  ghost predicate Copying(
      flat: string, n: nat, blocks: nat, offset: nat, count: nat, it: nat, pad: nat, written: nat,
      had: Sunk, has: Sunk) {
    && n > 0 && pad < n && offset <= |flat|
    && Copied(flat, n, blocks, offset, Min(count, |flat| - offset), it, pad, written)
    && written <= had.room && has == Sunk(had.got + flat[offset..offset + written], had.room - written)
  }

  /** What could go has gone. */
  ghost predicate Drained(flat: string, offset: nat, count: nat, written: nat, had: Sunk, has: Sunk) {
    && offset <= |flat| && written == Min(Min(count, |flat| - offset), had.room)
    && has.got == had.got + flat[offset..offset + written]
  }

  lemma CopyingStarts(flat: string, n: nat, blocks: nat, offset: nat, count: nat, it: nat, pad: nat, had: Sunk)
    requires n > 0 && |flat| == Start(blocks, n) && offset <= |flat|
    requires it == BlockAt(offset, n) && pad == PadAt(offset, n)
    ensures Copying(flat, n, blocks, offset, count, it, pad, 0, had, had)
  {
    hide Start, BlockAt, Copied;
    CopyStarts(flat, n, blocks, offset, Min(count, |flat| - offset), it, pad);
    assert had.got + "" == had.got;
  }

  /** One turn of it. */
  lemma CopyTurn(
      flat: string, n: nat, blocks: nat, offset: nat, count: nat, it: nat, pad: nat, written: nat, had: Sunk, has: Sunk)
    requires it < blocks && Copying(flat, n, blocks, offset, count, it, pad, written, had, has)
    ensures written <= count && pad < n
    ensures var k := Min(n - pad, count - written);
            var w := Min(k, has.room);
            var from := Start(it, n) + pad;
            && from + k <= |flat|
            && var now := Sunk(has.got + flat[from..from + w], has.room - w);
               if w != k || written + w == count then Drained(flat, offset, count, written + w, had, now)
               else Copying(flat, n, blocks, offset, count, it + 1, 0, written + w, had, now)
  {
    hide Start;
    CopyPiece(flat, n, blocks, offset, count, it, pad, written);
    var w := Min(Min(n - pad, count - written), has.room);
    CopyGoesOn(flat, n, blocks, offset, Min(count, |flat| - offset), it, pad, written, w, had.got);
  }

  lemma CopyingEnds(
      flat: string, n: nat, blocks: nat, offset: nat, count: nat, it: nat, pad: nat, written: nat, had: Sunk, has: Sunk)
    requires it >= blocks && Copying(flat, n, blocks, offset, count, it, pad, written, had, has)
    ensures Drained(flat, offset, count, written, had, has)
  {
    hide Start;
  }

  lemma PieceTaken(flat: string, from: nat, n: nat, piece: string, k: nat)
    requires k <= n && from + n <= |flat| && piece == flat[from..from + n]
    ensures piece[..k] == flat[from..from + k]
  {
  }

  /** `written` bytes of `count` are out, and the next ones begin `pad` bytes into block `it`. */
  ghost predicate Copied(flat: string, n: nat, blocks: nat, offset: nat, count: nat, it: nat, pad: nat, written: nat) {
    && |flat| == Start(blocks, n) && offset + count <= |flat| && written <= count
    && Start(it, n) + pad == offset + written && (it >= blocks ==> written == count)
  }

  lemma CopyStarts(flat: string, n: nat, blocks: nat, offset: nat, count: nat, it: nat, pad: nat)
    requires n > 0 && |flat| == Start(blocks, n) && offset + count <= |flat|
    requires it == BlockAt(offset, n) && pad == PadAt(offset, n)
    ensures Copied(flat, n, blocks, offset, count, it, pad, 0) && flat[offset..offset + 0] == ""
  {
    hide Start, BlockAt, PadAt;
    StartOf(offset, n);
    if it >= blocks { StartMono(blocks, it, n); }
  }

  /** The next piece is what is left of the block, or what is left to copy. */
  lemma CopyPiece(flat: string, n: nat, blocks: nat, offset: nat, count: nat, it: nat, pad: nat, written: nat)
    requires n > 0 && pad < n && it < blocks && offset <= |flat|
    requires Copied(flat, n, blocks, offset, Min(count, |flat| - offset), it, pad, written)
    ensures Min(n - pad, count - written) == Min(n - pad, Min(count, |flat| - offset) - written)
    ensures Start(it, n) + pad == offset + written && offset + written + Min(n - pad, count - written) <= |flat|
  {
    hide Start;
    StartNext(it, n);
    StartMono(it + 1, blocks, n);
  }

  lemma CopyGoesOn(
      flat: string, n: nat, blocks: nat, offset: nat, count: nat, it: nat, pad: nat, written: nat, w: nat, got: string)
    requires n > 0 && pad < n && it < blocks && Copied(flat, n, blocks, offset, count, it, pad, written)
    requires w <= Min(n - pad, count - written)
    ensures var from := Start(it, n) + pad;
            && from + w <= |flat|
            && got + flat[offset..offset + written] + flat[from..from + w] == got + flat[offset..offset + (written + w)]
    ensures w == n - pad ==> Copied(flat, n, blocks, offset, count, it + 1, 0, written + w)
  {
    hide Start;
    StartNext(it, n);
    StartMono(it + 1, blocks, n);
    if it + 1 == blocks { assert Start(it + 1, n) == Start(blocks, n); }
    assert flat[offset..offset + written] + flat[offset + written..offset + written + w]
           == flat[offset..offset + (written + w)];
  }

  lemma RoomFits(n: nat)
    ensures n % TWO_TO_32 <= n && (n < TWO_TO_32 ==> n % TWO_TO_32 == n)
  {}

  /** An append keeps what the stream held and adds the bytes, whatever the blocks held behind. */
  lemma AppendView(before: string, after: string, at: nat, data: string)
    requires at <= |before| <= |after| && at + |data| <= |after|
    requires after == Splice(before + after[|before|..], at, data)
    ensures after[..at + |data|] == before[..at] + data
  {}

  // ---------- any sequence of operations ----------

  datatype Op = WriteOp(data: string) | ReadOp(count: nat) | SeekOp(to: int, whence: Whence) | ClearOp
  datatype Result = Wrote(written: nat) | Got(data: string) | Sought(done: bool) | Cleared

  function FlatStep(f: Flat, op: Op): (r: (Flat, Result))
    requires f.Ok()
    ensures r.0.Ok()
  {
    match op
    case WriteOp(data) => var (g, n) := f.Write(data); (g, Wrote(n))
    case ReadOp(count) => RoomFits(|f.bytes| - f.pos); var (g, d) := f.Read(count); (g, Got(d))
    case SeekOp(to, whence) => var (g, done) := f.Seek(to, whence); (g, Sought(done))
    case ClearOp => (Flat("", 0, true), Cleared)
  }

  function FlatRun(f: Flat, ops: seq<Op>): (Flat, seq<Result>)
    requires f.Ok()
    decreases |ops|
  {
    if ops == [] then (f, [])
    else
      var (g, r) := FlatStep(f, ops[0]);
      var (h, rs) := FlatRun(g, ops[1..]);
      (h, [r] + rs)
  }

  method Perform(s: DynamicMemoryStream, op: Op) returns (r: Result)
    requires s.Valid()
    modifies s, s.storage, s.storage.blocks
    ensures s.Valid() && fresh(set b | b in s.storage.blocks && b !in old(s.storage.blocks))
    ensures (s.View(), r) == FlatStep(old(s.View()), op)
  {
    hide Concat;
    match op {
      case WriteOp(data) => var n := s.Write(data); r := Wrote(n);
      case ReadOp(count) => var d := s.Read(count); r := Got(d);
      case SeekOp(to, whence) => var done, position := s.Seek(to, whence); r := Sought(done);
      case ClearOp => s.Clear(); r := Cleared;
    }
  }

  /** Whatever is done with a stream, over any block size, it answers as the flat string would. */
  method Replay(s: DynamicMemoryStream, ops: seq<Op>) returns (rs: seq<Result>)
    requires s.Valid()
    modifies s, s.storage, s.storage.blocks
    ensures s.Valid() && (s.View(), rs) == FlatRun(old(s.View()), ops)
  {
    hide Concat, FlatStep;
    rs := [];
    ghost var f0 := s.View();
    ghost var f := f0;
    assert ops[0..] == ops;
    for i := 0 to |ops|
      invariant s.Valid() && fresh(set b | b in s.storage.blocks && b !in old(s.storage.blocks))
      invariant f.Ok() && f == s.View()
      invariant FlatRun(f0, ops).0 == FlatRun(f, ops[i..]).0 && FlatRun(f0, ops).1 == rs + FlatRun(f, ops[i..]).1
    {
      assert ops[i..][0] == ops[i] && ops[i..][1..] == ops[i + 1..];
      ghost var g := FlatStep(f, ops[i]);
      var r := Perform(s, ops[i]);
      assert rs + ([r] + FlatRun(g.0, ops[i + 1..]).1) == rs + [r] + FlatRun(g.0, ops[i + 1..]).1;
      f := g.0;
      rs := rs + [r];
    }
    assert ops[|ops|..] == [] && rs + [] == rs;
  }

  function Joined(pieces: seq<string>): string {
    if pieces == [] then "" else pieces[0] + Joined(pieces[1..])
  }

  function WriteAll(f: Flat, pieces: seq<string>): Flat
    decreases |pieces|
  {
    if pieces == [] then f else WriteAll(f.Write(pieces[0]).0, pieces[1..])
  }

  function ReadAll(f: Flat, counts: seq<nat>): (r: (Flat, string))
    requires f.Ok()
    ensures r.0.Ok() && r.0.bytes == f.bytes && f.pos <= r.0.pos && r.1 == f.bytes[f.pos..r.0.pos]
    decreases |counts|
  {
    RoomFits(|f.bytes| - f.pos);
    if counts == [] then (f, "")
    else
      var (g, d) := f.Read(counts[0]);
      var (h, more) := ReadAll(g, counts[1..]);
      (h, d + more)
  }

  lemma {:induction false} WritesAppend(f: Flat, pieces: seq<string>)
    requires f.pos == |f.bytes|
    ensures var g := WriteAll(f, pieces); g.bytes == f.bytes + Joined(pieces) && g.pos == |g.bytes|
    decreases |pieces|
  {
    if pieces != [] {
      WritesAppend(f.Write(pieces[0]).0, pieces[1..]);
      assert f.bytes + pieces[0] + Joined(pieces[1..]) == f.bytes + Joined(pieces);
    }
  }

  /** A read that gets nothing stands at the end, as long as less than 2^32 bytes are left. */
  lemma {:induction false} ReadsFinish(f: Flat, counts: seq<nat>)
    requires f.Ok() && |f.bytes| - f.pos < TWO_TO_32 && |counts| >= |f.bytes| - f.pos
    requires forall i :: 0 <= i < |counts| ==> counts[i] > 0
    ensures ReadAll(f, counts).0.pos == |f.bytes|
    decreases |counts|
  {
    RoomFits(|f.bytes| - f.pos);
    if counts != [] {
      var g := f.Read(counts[0]).0;
      ReadsFinish(g, counts[1..]);
    }
  }

  /** What is written into an emptied stream, in any pieces, is read back from its start, in any
      pieces, in order and complete. */
  lemma WrittenIsRead(pieces: seq<string>, counts: seq<nat>)
    requires |Joined(pieces)| < TWO_TO_32 && |counts| >= |Joined(pieces)|
    requires forall i :: 0 <= i < |counts| ==> counts[i] > 0
    ensures var g := WriteAll(Flat("", 0, true), pieces).Seek(0, Set).0;
            g.Ok() && ReadAll(g, counts).1 == Joined(pieces)
  {
    WritesAppend(Flat("", 0, true), pieces);
    var g := WriteAll(Flat("", 0, true), pieces).Seek(0, Set).0;
    ReadsFinish(g, counts);
    assert g.bytes[0..|g.bytes|] == g.bytes;
  }
}
