/** A reader of the PNG subset the writer produces, and the proof that it gets every image back. */
module PngReader {
  import opened Atlas
  import opened Bytes
  import opened Png

  datatype Part<T> = Part(value: T, rest: seq<Byte>)

  // ---- Inflating stored blocks ----

  /** The blocks up to and including the final one. */
  function Inflate(s: seq<Byte>): Option<Part<seq<Byte>>> {
    if |s| < 5 then None
    else
      var final, kind := s[0] as int % 2 == 1, s[0] as int / 2 % 4;
      var size := FromLe16(s[1], s[2]);
      if kind != 0 || FromLe16(s[3], s[4]) != LARGEST_BLOCK - size || |s| < 5 + size then None
      else
        var data, after := s[5..5 + size], s[5 + size..];
        if final then Some(Part(data, after))
        else
          match Inflate(after)
          case None => None
          case Some(more) => Some(Part(data + more.value, more.rest))
  }

  /** The zlib header, the blocks and the checksum. */
  function Unzip(s: seq<Byte>): Option<seq<Byte>> {
    if |s| < 2 || s[0] as int % 16 != 8 || (s[0] as int * 256 + s[1] as int) % 31 != 0 || s[1] as int / 32 % 2 != 0 then None
    else
      match Inflate(s[2..])
      case None => None
      case Some(part) => if part.rest == Be32(Adler(part.value)) then Some(part.value) else None
  }

  lemma OneBlock(last: bool, data: seq<Byte>, rest: seq<Byte>)
    requires |data| <= LARGEST_BLOCK
    ensures var s := Block(last, data) + rest;
            && |s| >= 5 && s[0] == (if last then 1 else 0)
            && FromLe16(s[1], s[2]) == |data| && FromLe16(s[3], s[4]) == LARGEST_BLOCK - |data|
            && |s| >= 5 + |data| && s[5..5 + |data|] == data && s[5 + |data|..] == rest
  {
    Le16RoundTrip(|data|);
    Le16RoundTrip(LARGEST_BLOCK - |data|);
    hide Le16, FromLe16;
    var s := Block(last, data) + rest;
    assert s[1] == Le16(|data|)[0] && s[2] == Le16(|data|)[1];
    assert s[3] == Le16(LARGEST_BLOCK - |data|)[0] && s[4] == Le16(LARGEST_BLOCK - |data|)[1];
  }

  lemma InflateBlock(last: bool, data: seq<Byte>, rest: seq<Byte>)
    requires |data| <= LARGEST_BLOCK
    ensures last ==> Inflate(Block(last, data) + rest) == Some(Part(data, rest))
    ensures !last && Inflate(rest).Some? ==>
              Inflate(Block(last, data) + rest) == Some(Part(data + Inflate(rest).value.value, Inflate(rest).value.rest))
  {
    OneBlock(last, data, rest);
    hide Block, FromLe16;
  }

  lemma {:induction false} InflateBlocks(raw: seq<Byte>, rest: seq<Byte>)
    ensures Inflate(Blocks(raw) + rest) == Some(Part(raw, rest))
    decreases |raw|
  {
    hide Inflate, Block;
    if |raw| <= LARGEST_BLOCK {
      InflateBlock(true, raw, rest);
    } else {
      var data, more := raw[..LARGEST_BLOCK], raw[LARGEST_BLOCK..];
      InflateBlocks(more, rest);
      InflateBlock(false, data, Blocks(more) + rest);
      assert Block(false, data) + Blocks(more) + rest == Block(false, data) + (Blocks(more) + rest);
      assert data + more == raw;
    }
  }

  lemma UnzipParts(s: seq<Byte>, part: Part<seq<Byte>>)
    requires |s| >= 2 && s[0] == 0x78 && s[1] == 0x01
    requires Inflate(s[2..]) == Some(part) && part.rest == Be32(Adler(part.value))
    ensures Unzip(s) == Some(part.value)
  {
    hide Inflate, Adler, Be32;
  }

  lemma ZlibLayout(raw: seq<Byte>)
    ensures |Zlib(raw)| >= 2 && Zlib(raw)[0] == 0x78 && Zlib(raw)[1] == 0x01
    ensures Zlib(raw)[2..] == Blocks(raw) + Be32(Adler(raw))
  {
    hide Blocks, Adler, Be32;
  }

  lemma UnzipZlib(raw: seq<Byte>)
    ensures Unzip(Zlib(raw)) == Some(raw)
  {
    hide Inflate, Blocks, Adler, Be32, Zlib, Unzip;
    InflateBlocks(raw, Be32(Adler(raw)));
    ZlibLayout(raw);
    UnzipParts(Zlib(raw), Part(raw, Be32(Adler(raw))));
  }

  // ---- Chunks ----

  datatype Piece = Piece(kind: seq<Byte>, data: seq<Byte>)

  /** One chunk: its length, kind and data, and a checksum that must agree. */
  function ReadChunk(s: seq<Byte>): Option<Part<Piece>> {
    if |s| < 12 then None
    else
      var size := FromBe32(s[..4]);
      if |s| < 12 + size then None
      else
        var kind, data, check := s[4..8], s[8..8 + size], s[8 + size..12 + size];
        if check == Be32(Crc(kind + data) as int) then Some(Part(Piece(kind, data), s[12 + size..])) else None
  }

  lemma ChunkLayout(kind: seq<Byte>, data: seq<Byte>, rest: seq<Byte>)
    requires |kind| == 4
    ensures var s, size := Chunk(kind, data) + rest, |data|;
            && |s| >= 12 + size && s[..4] == Be32(Length32(size)) && s[4..8] == kind && s[8..8 + size] == data
            && s[8 + size..12 + size] == Be32(Crc(kind + data) as int) && s[12 + size..] == rest
  {
    hide Be32, Crc, Length32;
  }

  lemma ReadWritten(kind: seq<Byte>, data: seq<Byte>, rest: seq<Byte>)
    requires |kind| == 4 && |data| < 0x1_0000_0000
    ensures ReadChunk(Chunk(kind, data) + rest) == Some(Part(Piece(kind, data), rest))
  {
    ChunkLayout(kind, data, rest);
    Be32RoundTrip(|data|);
    hide Chunk, Be32, Crc, FromBe32;
  }

  /** A chunk's length field tells the truth exactly when the data is shorter than 4 GiB. */
  lemma LengthIsHonestIff(kind: seq<Byte>, data: seq<Byte>)
    requires |kind| == 4
    ensures FromBe32(Chunk(kind, data)[..4]) == |data| <==> |data| < 0x1_0000_0000
  {
    ChunkLayout(kind, data, []);
    Be32RoundTrip(Length32(|data|));
    hide Be32, Crc, FromBe32;
    assert Chunk(kind, data) + [] == Chunk(kind, data);
  }

  // ---- The file ----

  /** The image data up to the end chunk. */
  function ImageData(s: seq<Byte>): Option<seq<Byte>>
    decreases |s|
  {
    match ReadChunk(s)
    case None => None
    case Some(part) =>
      if part.value.kind == IEND then (if part.value.data == [] && part.rest == [] then Some([]) else None)
      else if part.value.kind == IDAT && |part.rest| < |s| then
        match ImageData(part.rest)
        case None => None
        case Some(more) => Some(part.value.data + more)
      else None
  }

  /** Scanlines with filter 0, back to pixels. */
  function Unfilter(raw: seq<Byte>, row: nat, height: nat): Option<seq<Byte>> {
    if height == 0 then (if raw == [] then Some([]) else None)
    else if |raw| < 1 + row || raw[0] != 0 then None
    else
      match Unfilter(raw[1 + row..], row, height - 1)
      case None => None
      case Some(more) => Some(raw[1..1 + row] + more)
  }

  datatype Picture = Picture(width: int, height: int, rgba: seq<Byte>)

  /** An 8-bit RGBA image, not interlaced. */
  function Read(s: seq<Byte>): Option<Picture> {
    if |s| < 8 || s[..8] != SIGNATURE then None
    else
      match ReadChunk(s[8..])
      case None => None
      case Some(part) =>
        var h := part.value.data;
        if part.value.kind != IHDR || |h| != 13 || h[8..] != [8, 6, 0, 0, 0] then None
        else ReadBody(FromBe32(h[..4]), FromBe32(h[4..8]), part.rest)
  }

  function ReadBody(width: nat, height: nat, s: seq<Byte>): Option<Picture> {
    match ImageData(s)
    case None => None
    case Some(data) =>
      match Unzip(data)
      case None => None
      case Some(raw) =>
        match Unfilter(raw, width * 4, height)
        case None => None
        case Some(rgba) => Some(Picture(width, height, rgba))
  }

  lemma {:induction false} UnfilterScanlines(rgba: seq<Byte>, row: nat, height: nat)
    requires |rgba| == height * row
    ensures Unfilter(Scanlines(rgba, row, height), row, height) == Some(rgba)
    decreases height
  {
    if height == 0 {
      assert rgba == [];
    } else {
      RestOfRows(|rgba|, row, height);
      UnfilterScanlines(rgba[row..], row, height - 1);
      var raw := Scanlines(rgba, row, height);
      assert raw[1..1 + row] == rgba[..row] && raw[1 + row..] == Scanlines(rgba[row..], row, height - 1);
      assert rgba[..row] + rgba[row..] == rgba;
    }
  }

  lemma DataOf(data: seq<Byte>)
    requires |data| < 0x1_0000_0000
    ensures ImageData(Chunk(IDAT, data) + Chunk(IEND, [])) == Some(data)
  {
    var end := Chunk(IEND, []);
    ReadWritten(IDAT, data, end);
    ReadWritten(IEND, [], []);
    assert |Chunk(IDAT, data)| > 0;
    assert end + [] == end && data + [] == data;
    hide Chunk, ReadChunk;
    assert ImageData(end) == Some([]);
  }

  lemma HeaderLayout(width: u32, height: u32)
    ensures var h := Header(width, height);
            h[..4] == Be32(width as int) && h[4..8] == Be32(height as int) && h[8..] == [8, 6, 0, 0, 0]
  {
    hide Be32;
  }

  lemma ReadParts(s: seq<Byte>, h: seq<Byte>, rest: seq<Byte>)
    requires |s| >= 8 && s[..8] == SIGNATURE && ReadChunk(s[8..]) == Some(Part(Piece(IHDR, h), rest))
    requires |h| == 13 && h[8..] == [8, 6, 0, 0, 0]
    ensures Read(s) == ReadBody(FromBe32(h[..4]), FromBe32(h[4..8]), rest)
  {
    hide ReadChunk, FromBe32, ReadBody;
  }

  lemma ReadHeader(width: u32, height: u32, rest: seq<Byte>)
    ensures Read(SIGNATURE + (Chunk(IHDR, Header(width, height)) + rest)) == ReadBody(width as int, height as int, rest)
  {
    hide Chunk, ReadChunk, Be32, FromBe32, ReadBody, Header, Read;
    var h := Header(width, height);
    var s := SIGNATURE + (Chunk(IHDR, h) + rest);
    assert s[..8] == SIGNATURE && s[8..] == Chunk(IHDR, h) + rest;
    ReadWritten(IHDR, h, rest);
    HeaderLayout(width, height);
    Be32RoundTrip(width as int);
    Be32RoundTrip(height as int);
    ReadParts(s, h, rest);
  }

  lemma BodyParts(width: nat, height: nat, s: seq<Byte>, data: seq<Byte>, raw: seq<Byte>, rgba: seq<Byte>)
    requires ImageData(s) == Some(data) && Unzip(data) == Some(raw) && Unfilter(raw, width * 4, height) == Some(rgba)
    ensures ReadBody(width, height, s) == Some(Picture(width, height, rgba))
  {
    hide ImageData, Unzip, Unfilter;
  }

  lemma ImageLayout(width: u32, height: u32, rgba: seq<Byte>, data: seq<Byte>)
    requires |rgba| == height as int * (width as int * 4)
    requires data == Zlib(Scanlines(rgba, width as int * 4, height as int))
    ensures Image(width, height, rgba) == SIGNATURE + (Chunk(IHDR, Header(width, height)) + (Chunk(IDAT, data) + Chunk(IEND, [])))
  {
    hide Chunk, Header, Zlib, Scanlines;
  }

  /** Every image whose compressed data fits one chunk is recovered: width, height, all pixels. */
  lemma ReadGetsImageBack(width: u32, height: u32, rgba: seq<Byte>)
    requires |rgba| == height as int * (width as int * 4)
    requires |Zlib(Scanlines(rgba, width as int * 4, height as int))| < 0x1_0000_0000
    ensures Read(Image(width, height, rgba)) == Some(Picture(width as int, height as int, rgba))
  {
    hide Read, ReadBody, Chunk, Zlib, Scanlines, ImageData, Unzip, Unfilter, Header, Image;
    var raw := Scanlines(rgba, width as int * 4, height as int);
    var data := Zlib(raw);
    var body := Chunk(IDAT, data) + Chunk(IEND, []);
    DataOf(data);
    UnzipZlib(raw);
    UnfilterScanlines(rgba, width as int * 4, height as int);
    BodyParts(width as int, height as int, body, data, raw, rgba);
    ReadHeader(width, height, body);
    ImageLayout(width, height, rgba, data);
  }

  // ---- Which images fit ----

  /** The number of stored blocks of `n` bytes. */
  function BlockCount(n: nat): nat {
    if n <= LARGEST_BLOCK then 1 else 1 + BlockCount(n - LARGEST_BLOCK)
  }

  lemma {:induction false} ZlibSize(raw: seq<Byte>)
    ensures |Blocks(raw)| == |raw| + 5 * BlockCount(|raw|)
    decreases |raw|
  {
    if |raw| > LARGEST_BLOCK {
      ZlibSize(raw[LARGEST_BLOCK..]);
    }
  }

  lemma {:induction false} ScanlinesSize(rgba: seq<Byte>, row: nat, height: nat)
    requires |rgba| == height * row
    ensures |Scanlines(rgba, row, height)| == height + |rgba|
    decreases height
  {
    if height > 0 {
      RestOfRows(|rgba|, row, height);
      ScanlinesSize(rgba[row..], row, height - 1);
    }
  }

  /** The size of the image data, from the dimensions alone. */
  lemma ImageDataSize(width: u32, height: u32, rgba: seq<Byte>)
    requires |rgba| == height as int * (width as int * 4)
    ensures |Zlib(Scanlines(rgba, width as int * 4, height as int))|
         == height as int + |rgba| + 5 * BlockCount(height as int + |rgba|) + 6
  {
    ScanlinesSize(rgba, width as int * 4, height as int);
    ZlibSize(Scanlines(rgba, width as int * 4, height as int));
    hide Scanlines, Blocks, BlockCount;
  }
}
