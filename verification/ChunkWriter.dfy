/** The chunked writer of the proxy's responses (webhdfs_image_proxy/connection.cpp), and the parser
    as its inverse. */
module ChunkWriter {
  import opened Bytes
  import opened HttpTypes
  import opened HttpStep
  import opened HttpChunked
  import opened MemoryStorage
  import opened MemoryStream

  // ---------- "%x" ----------

  function HexDigit(d: nat): char
    requires d < 16
  {
    if d < 10 then ('0' as int + d) as char else ('a' as int + d - 10) as char
  }

  function ToHex(n: nat): string {
    if n < 16 then [HexDigit(n)] else ToHex(n / 16) + [HexDigit(n % 16)]
  }

  lemma HexDigitRead(d: nat)
    requires d < 16
    ensures IsHex(HexDigit(d)) && Unhex(HexDigit(d)) == d
  {}

  /** Reading back what "%x" prints. */
  lemma {:induction false} HexInverse(n: nat)
    ensures AllHex(ToHex(n)) && HexValue(ToHex(n)) == n && ToHex(n) != ""
  {
    HexDigitRead(n % 16);
    if n < 16 {
      HexSnoc("", HexDigit(n));
      assert "" + [HexDigit(n)] == [HexDigit(n)];
    } else {
      HexInverse(n / 16);
      HexSnoc(ToHex(n / 16), HexDigit(n % 16));
    }
  }

  lemma HexShort(n: nat)
    requires n < 0x1000
    ensures |ToHex(n)| <= 3
  {
    var a := n / 16;
    var b := a / 16;
    assert b < 16 && |ToHex(b)| == 1;
    assert a < 16 || |ToHex(a)| == 2;
  }

  // ---------- one frame ----------

  const BUFFER_SIZE: nat := 0x1000
  const CHUNK_OFFSET: nat := 6
  const MAX_CHUNK_SIZE: nat := 0x1000 - 8

  function Frame(data: string): string { ToHex(|data|) + CRLF + data + CRLF }

  /** BuildChunk: the size line is put right before the data, which begins at CHUNK_OFFSET, and a
      CRLF right behind it. Every frame fits the buffer. */
  method BuildChunk(buffer: array<char>, chunkSize: nat) returns (from: nat, len: nat)
    requires buffer.Length == BUFFER_SIZE && chunkSize <= MAX_CHUNK_SIZE
    modifies buffer
    ensures from + len <= BUFFER_SIZE
    ensures buffer[from..from + len] == Frame(old(buffer[CHUNK_OFFSET..CHUNK_OFFSET + chunkSize]))
  {
    hide ToHex;
    HexShort(chunkSize);
    ghost var data := buffer[CHUNK_OFFSET..CHUNK_OFFSET + chunkSize];
    ghost var b0 := buffer[..];
    var tmp := ToHex(chunkSize) + CRLF;
    var n := |tmp|;
    Memcpy(buffer, CHUNK_OFFSET - n, tmp);
    ghost var b1 := buffer[..];
    assert b1[CHUNK_OFFSET - n..CHUNK_OFFSET] == tmp;
    assert b1[CHUNK_OFFSET..CHUNK_OFFSET + chunkSize] == data;
    Memcpy(buffer, CHUNK_OFFSET + chunkSize, CRLF);
    ghost var b2 := buffer[..];
    from, len := CHUNK_OFFSET - n, chunkSize + n + 2;
    assert b2[CHUNK_OFFSET - n..CHUNK_OFFSET] == tmp;
    assert b2[CHUNK_OFFSET..CHUNK_OFFSET + chunkSize] == data;
    assert b2[from..from + len] == b2[CHUNK_OFFSET - n..CHUNK_OFFSET] + b2[CHUNK_OFFSET..CHUNK_OFFSET + chunkSize]
                                 + b2[CHUNK_OFFSET + chunkSize..CHUNK_OFFSET + chunkSize + 2];
  }

  // ---------- the whole body ----------

  /** The frames of an image: full chunks, the rest, and the zero chunk. */
  function Frames(image: string): string
    decreases |image|
  {
    if image == "" then Frame("")
    else var n := Min(MAX_CHUNK_SIZE, |image|); Frame(image[..n]) + Frames(image[n..])
  }

  /** One call of handle_write_response: the next piece of the image is read behind CHUNK_OFFSET and framed. */
  method NextFrame(image: DynamicMemoryStream, buffer: array<char>) returns (data: string, frame: string)
    requires image.Valid() && buffer.Length == BUFFER_SIZE && buffer !in image.storage.blocks
    modifies image, buffer
    ensures image.Valid() && (image.View(), data) == old(image.View()).Read(MAX_CHUNK_SIZE) && frame == Frame(data)
  {
    hide Concat, Frame;
    data := image.Read(MAX_CHUNK_SIZE);
    Memcpy(buffer, CHUNK_OFFSET, data);
    assert buffer[CHUNK_OFFSET..CHUNK_OFFSET + |data|] == data;
    var from, len := BuildChunk(buffer, |data|);
    frame := buffer[from..from + len];
  }

  /** The frames of what is left at `pos`: one more, and those of the rest. */
  lemma FrameNext(bytes: string, pos: nat, out: string)
    requires pos <= |bytes|
    ensures var n := Min(MAX_CHUNK_SIZE, |bytes| - pos);
            out + Frames(bytes[pos..]) == if n == 0 then out + Frame("")
              else out + Frame(bytes[pos..pos + n]) + Frames(bytes[pos + n..])
  {
    hide Frame;
    var n := Min(MAX_CHUNK_SIZE, |bytes| - pos);
    var left := bytes[pos..];
    assert left[..n] == bytes[pos..pos + n] && left[n..] == bytes[pos + n..];
    if n > 0 { assert out + (Frame(left[..n]) + Frames(left[n..])) == out + Frame(left[..n]) + Frames(left[n..]); }
  }

  /** handle_write_response, called again each time its write completes: a chunk is read and written; the
      empty read drops the image and writes the zero chunk. */
  method WriteImage(image: DynamicMemoryStream, buffer: array<char>) returns (out: string)
    requires image.Valid() && buffer.Length == BUFFER_SIZE && buffer !in image.storage.blocks
    requires |image.View().bytes| < TWO_TO_32
    modifies image, buffer
    ensures out == Frames(old(image.View().bytes[image.View().pos..]))
  {
    hide Concat, Frame, Frames;
    out := "";
    ghost var bytes, all := image.View().bytes, Frames(image.View().bytes[image.View().pos..]);
    var more := true;
    assert out + all == all;
    while more
      invariant image.Valid() && image.View().bytes == bytes
      invariant all == if more then out + Frames(bytes[image.View().pos..]) else out
      decreases more, |bytes| - image.View().pos
    {
      RoomFits(|bytes| - image.View().pos);
      FrameNext(bytes, image.View().pos, out);
      var data, frame := NextFrame(image, buffer);
      more := data != "";
      out := out + frame;
    }
  }

  // ---------- the parser reads it back ----------

  const ZERO_CHUNK := Last("0", "", [], CRLF)

  /** The frames as chunks of the grammar. */
  function ImageChunks(image: string): seq<Chunk>
    decreases |image|
  {
    if image == "" then []
    else var n := Min(MAX_CHUNK_SIZE, |image|); [Chunk(ToHex(n), "", image[..n])] + ImageChunks(image[n..])
  }

  lemma {:induction false} FramesAreChunks(image: string)
    ensures Frames(image) == ChunksText(ImageChunks(image)) + LastText(ZERO_CHUNK)
    ensures ChunksOk(ImageChunks(image)) && ChunksData(ImageChunks(image)) == image
    ensures ImageChunks(image) == [] <==> image == ""
    decreases |image|
  {
    hide ToHex, HexValue;
    if image == "" {
      ZeroFrame();
      assert "" + LastText(ZERO_CHUNK) == LastText(ZERO_CHUNK);
    } else {
      var n := Min(MAX_CHUNK_SIZE, |image|);
      var k := Chunk(ToHex(n), "", image[..n]);
      HexInverse(n);
      HexShort(n);
      FramesAreChunks(image[n..]);
      var ks := ImageChunks(image[n..]);
      assert ImageChunks(image) == [k] + ks && ([k] + ks)[1..] == ks;
      assert ChunkText(k) == Frame(image[..n]) by { assert ToHex(n) + "" == ToHex(n); }
      assert Frame(image[..n]) + (ChunksText(ks) + LastText(ZERO_CHUNK))
             == ChunkText(k) + ChunksText(ks) + LastText(ZERO_CHUNK);
      assert image[..n] + image[n..] == image;
    }
  }

  lemma ZeroFrame()
    ensures Frame("") == LastText(ZERO_CHUNK) == "0\r\n\r\n"
    ensures LastOk(ZERO_CHUNK)
  {
    assert ToHex(0) == "0";
    HexSnoc("", '0');
    assert "" + ['0'] == "0";
    assert "0" + "" + CRLF + "" + CRLF == "0\r\n\r\n";
  }

  /** The writer is inverted by the parser: whatever the image, and however its frames are cut on the
      way, they are consumed to the last byte, the body handed over is the image, and the message is
      completed once. */
  lemma ImageRoundTrip(c: Config, image: string, pieces: seq<string>)
    requires !c.left && AtChunk(c.p) && Flatten(pieces) == Frames(image)
    ensures var d := FeedAll(c, pieces);
            && d.p.errno.Ok? && !d.left
            && d.t == Push(if image == "" then c.t else Push(c.t, Data(Body, image)), MessageComplete)
            && Consumed(c, Frames(image)) == |Frames(image)|
  {
    hide Step, Push, LastOk, LastText, Frames, ChunksOk;
    FramesAreChunks(image);
    ZeroFrame();
    FeedAllFlatten(c, pieces);
    ChunkedBodyRead(c, ImageChunks(image), ZERO_CHUNK);
  }
}
