/** The PNG writer (`texture/png.rs`), and a reader that inverts it. */
module Png {
  import opened Atlas
  import opened Bytes

  // ---- Adler-32 (section 2.2 of RFC 1950) ----

  const MODULUS := 65521

  function Total(s: seq<Byte>): int {
    if s == [] then 0 else Total(s[..|s| - 1]) + s[|s| - 1] as int
  }

  /** The first byte `|s|` times, the second once less, and so on: the first `n` terms. */
  function Weighted(s: seq<Byte>, n: nat): int
    requires n <= |s|
  {
    if n == 0 then 0 else Weighted(s, n - 1) + (|s| - (n - 1)) * s[n - 1] as int
  }

  /** The checksum in closed form. */
  function Adler(s: seq<Byte>): (r: int)
    ensures 0 <= r < 0x1_0000_0000
  {
    (|s| + Weighted(s, |s|)) % MODULUS * 0x1_0000 + (1 + Total(s)) % MODULUS
  }

  lemma {:induction false} WeightedGrows(s: seq<Byte>, x: Byte, n: nat)
    requires n <= |s|
    ensures Weighted(s + [x], n) == Weighted(s, n) + Total(s[..n])
  {
    if n > 0 {
      WeightedGrows(s, x, n - 1);
      assert s[..n][..n - 1] == s[..n - 1];
      assert (s + [x])[n - 1] == s[n - 1];
    }
  }

  lemma SumsGrow(s: seq<Byte>, n: nat)
    requires n < |s|
    ensures Total(s[..n + 1]) == Total(s[..n]) + s[n] as int
    ensures Weighted(s[..n + 1], n + 1) == Weighted(s[..n], n) + Total(s[..n + 1])
  {
    assert s[..n + 1][..n] == s[..n] && s[..n + 1] == s[..n] + [s[n]];
    WeightedGrows(s[..n], s[n], n);
    assert s[..n][..n] == s[..n];
  }

  lemma AddMod(t: int, x: int)
    ensures (t % MODULUS + x) % MODULUS == (t + x) % MODULUS
  {
    var q := t / MODULUS;
    assert t + x == MODULUS * q + (t % MODULUS + x);
    ShiftMod(t % MODULUS + x, q);
  }

  lemma ShiftMod(z: int, q: int)
    ensures (MODULUS * q + z) % MODULUS == z % MODULUS
  {
    assert MODULUS * q + z == MODULUS * (q + z / MODULUS) + z % MODULUS;
  }

  lemma AdlerStep(s: seq<Byte>, n: nat)
    requires n < |s|
    ensures ((1 + Total(s[..n])) % MODULUS + s[n] as int) % MODULUS == (1 + Total(s[..n + 1])) % MODULUS
    ensures ((n + Weighted(s[..n], n)) % MODULUS + (1 + Total(s[..n + 1])) % MODULUS) % MODULUS
         == (n + 1 + Weighted(s[..n + 1], n + 1)) % MODULUS
  {
    SumsGrow(s, n);
    hide Weighted, Total;
    AddMod(1 + Total(s[..n]), s[n] as int);
    AddMod(n + Weighted(s[..n], n), (1 + Total(s[..n + 1])) % MODULUS);
    AddMod(1 + Total(s[..n + 1]), n + Weighted(s[..n], n));
  }

  /** `adler32`: the two running sums, reduced at every byte, never leave 32 bits. */
  method Adler32(s: seq<Byte>) returns (r: u32)
    ensures r as int == Adler(s)
  {
    var a: u32, b: u32 := 1, 0;
    for n := 0 to |s|
      invariant a as int == (1 + Total(s[..n])) % MODULUS
      invariant b as int == (n + Weighted(s[..n], n)) % MODULUS
    {
      AdlerStep(s, n);
      hide Total, Weighted;
      a := (a + s[n] as u32) % MODULUS as u32;
      b := (b + a) % MODULUS as u32;
    }
    assert s[..|s|] == s;
    r := b * 0x1_0000 + a;  // the two halves do not overlap
  }

  // ---- CRC-32 ----

  function Xor(a: u32, b: u32): u32 {
    ((a as int as bv32) ^ (b as int as bv32)) as int as u32
  }

  function Not(a: u32): u32 {
    0xFFFF_FFFF - a
  }

  /** One turn of the inner loop: the mask is all ones exactly when the low bit is set. */
  function CrcBit(crc: u32): u32 {
    Xor(crc / 2, if crc % 2 == 1 then 0xEDB8_8320 else 0)
  }

  function CrcBits(crc: u32, n: nat): u32 {
    if n == 0 then crc else CrcBit(CrcBits(crc, n - 1))
  }

  const BITS: nat := 8

  function CrcFold(s: seq<Byte>): u32 {
    if s == [] then 0xFFFF_FFFF else CrcBits(Xor(CrcFold(s[..|s| - 1]), s[|s| - 1] as u32), BITS)
  }

  function Crc(s: seq<Byte>): u32 {
    Not(CrcFold(s))
  }

  lemma CrcStep(s: seq<Byte>, i: nat)
    requires i < |s|
    ensures CrcFold(s[..i + 1]) == CrcBits(Xor(CrcFold(s[..i]), s[i] as u32), BITS)
  {
    hide CrcBits, Xor;
    assert s[..i + 1][..i] == s[..i];
  }

  method Crc32(s: seq<Byte>) returns (r: u32)
    ensures r == Crc(s)
  {
    var crc: u32 := 0xFFFF_FFFF;
    assert s[..|s|] == s;
    hide Xor, CrcBit;
    for i := 0 to |s|
      invariant crc == CrcFold(s[..i])
    {
      CrcStep(s, i);
      crc := Xor(crc, s[i] as u32);
      ghost var start := crc;
      for n := 0 to BITS
        invariant crc == CrcBits(start, n)
      {
        crc := CrcBit(crc);
      }
    }
    r := Not(crc);
  }

  // ---- Stored deflate inside zlib (section 3.2.4 of RFC 1951, section 2.2 of RFC 1950) ----

  const LARGEST_BLOCK := 65535

  function Block(last: bool, data: seq<Byte>): seq<Byte>
    requires |data| <= LARGEST_BLOCK
  {
    [if last then 1 else 0] + Le16(|data|) + Le16(LARGEST_BLOCK - |data|) + data
  }

  function Blocks(raw: seq<Byte>): seq<Byte> {
    if |raw| <= LARGEST_BLOCK then Block(true, raw)
    else Block(false, raw[..LARGEST_BLOCK]) + Blocks(raw[LARGEST_BLOCK..])
  }

  function Zlib(raw: seq<Byte>): seq<Byte> {
    [0x78, 0x01] + Blocks(raw) + Be32(Adler(raw))
  }

  /** The blocks from byte `i` on; none once all bytes are out. */
  function Tail(raw: seq<Byte>, i: nat): seq<Byte>
    requires i <= |raw|
  {
    if i == |raw| then [] else Blocks(raw[i..])
  }

  lemma NextBlock(raw: seq<Byte>, i: nat, end: nat)
    requires i < |raw| && end == if i + LARGEST_BLOCK <= |raw| then i + LARGEST_BLOCK else |raw|
    ensures Tail(raw, i) == Block(end == |raw|, raw[i..end]) + Tail(raw, end)
  {
    if end == |raw| {
      assert raw[i..] == raw[i..end];
      var b := Block(true, raw[i..end]);
      assert b + [] == b;
    } else {
      assert raw[i..][..LARGEST_BLOCK] == raw[i..end] && raw[i..][LARGEST_BLOCK..] == raw[end..];
    }
  }

  lemma BlockWritten(was: seq<Byte>, last: bool, data: seq<Byte>, rest: seq<Byte>)
    requires |data| <= LARGEST_BLOCK
    ensures was + [if last then 1 else 0] + Le16(|data|) + Le16(LARGEST_BLOCK - |data|) + data + rest == was + (Block(last, data) + rest)
  {
  }

  method ZlibStored(raw: seq<Byte>) returns (out: seq<Byte>)
    ensures out == Zlib(raw)
  {
    out := [0x78, 0x01];
    if raw == [] {
      out := out + [0x01, 0x00, 0x00, 0xFF, 0xFF];
    } else {
      var i := 0;
      assert Tail(raw, 0) == Blocks(raw) by { assert raw[0..] == raw; }
      while i < |raw|
        invariant 0 <= i <= |raw|
        invariant out + Tail(raw, i) == [0x78, 0x01] + Blocks(raw)
        decreases |raw| - i
      {
        hide Blocks, Tail, Block, Le16;
        var end := if i + LARGEST_BLOCK <= |raw| then i + LARGEST_BLOCK else |raw|;
        NextBlock(raw, i, end);
        var chunk := raw[i..end];
        var last := end == |raw|;
        BlockWritten(out, last, chunk, Tail(raw, end));
        out := out + [if last then 1 else 0];
        out := out + Le16(|chunk|);
        out := out + Le16(LARGEST_BLOCK - |chunk|);
        out := out + chunk;
        i := end;
      }
      assert out + [] == out;
    }
    var check := Adler32(raw);
    out := out + Be32(check as int);
  }

  // ---- Chunks and the file (section 3.2 of RFC 2083) ----

  const SIGNATURE: seq<Byte> := [137, 80, 78, 71, 13, 10, 26, 10]
  const IHDR: seq<Byte> := [73, 72, 68, 82]
  const IDAT: seq<Byte> := [73, 68, 65, 84]
  const IEND: seq<Byte> := [73, 69, 78, 68]

  /** `len as u32`. */
  function Length32(n: nat): (r: int)
    ensures 0 <= r < 0x1_0000_0000
    ensures r == n <==> n < 0x1_0000_0000
  {
    n % 0x1_0000_0000
  }

  function Chunk(kind: seq<Byte>, data: seq<Byte>): seq<Byte> {
    Be32(Length32(|data|)) + kind + data + Be32(Crc(kind + data) as int)
  }

  method WriteChunk(out: seq<Byte>, kind: seq<Byte>, data: seq<Byte>) returns (more: seq<Byte>)
    ensures more == out + Chunk(kind, data)
  {
    more := out + Be32(Length32(|data|));
    more := more + kind;
    more := more + data;
    var crc := Crc32(kind + data);
    more := more + Be32(crc as int);
  }

  function Header(width: u32, height: u32): (h: seq<Byte>)
    ensures |h| == 13
  {
    Be32(width as int) + Be32(height as int) + [8, 6, 0, 0, 0]
  }

  /** The scanlines, each after the filter byte 0. */
  function Scanlines(rgba: seq<Byte>, row: nat, height: nat): seq<Byte>
    requires |rgba| == height * row
  {
    if height == 0 then []
    else
      RestOfRows(|rgba|, row, height);
      [0] + rgba[..row] + Scanlines(rgba[row..], row, height - 1)
  }

  lemma RestOfRows(size: nat, row: nat, height: nat)
    requires size == height * row && height > 0
    ensures row <= size && size - row == (height - 1) * row
  {
    assert height * row == (height - 1) * row + row;
    assert (height - 1) * row >= 0;
  }

  function Image(width: u32, height: u32, rgba: seq<Byte>): seq<Byte>
    requires |rgba| == height as int * (width as int * 4)
  {
    SIGNATURE + Chunk(IHDR, Header(width, height))
    + Chunk(IDAT, Zlib(Scanlines(rgba, width as int * 4, height as int))) + Chunk(IEND, [])
  }

  /** `encode_rgba_png`; like the source it demands that the pixels fill the image. */
  method EncodeRgbaPng(width: u32, height: u32, rgba: seq<Byte>) returns (out: seq<Byte>)
    requires |rgba| == height as int * (width as int * 4)
    ensures out == Image(width, height, rgba)
  {
    var row, n := width as int * 4, height as int;
    var raw: seq<Byte> := [];
    assert rgba[0..] == rgba;
    for y := 0 to n
      invariant 0 <= y * row <= |rgba| && |rgba| - y * row == (n - y) * row
      invariant raw + Scanlines(rgba[y * row..], row, n - y) == Scanlines(rgba, row, n)
    {
      NextRow(rgba, row, n, y);
      hide Scanlines;
      raw := raw + [0];
      raw := raw + rgba[y * row..(y + 1) * row];
    }
    assert raw + [] == raw;
    hide Scanlines, Chunk, Zlib;
    out := SIGNATURE;
    out := WriteChunk(out, IHDR, Header(width, height));
    var data := ZlibStored(raw);
    out := WriteChunk(out, IDAT, data);
    out := WriteChunk(out, IEND, []);
  }

  lemma NextRow(rgba: seq<Byte>, row: nat, n: nat, y: nat)
    requires |rgba| == n * row && y < n && 0 <= y * row <= |rgba| && |rgba| - y * row == (n - y) * row
    ensures 0 <= y * row <= (y + 1) * row <= |rgba| && |rgba| - (y + 1) * row == (n - (y + 1)) * row
    ensures Scanlines(rgba[y * row..], row, n - y) ==
            [0] + rgba[y * row..(y + 1) * row] + Scanlines(rgba[(y + 1) * row..], row, n - (y + 1))
  {
    RestOfRows(|rgba| - y * row, row, n - y);
    assert (y + 1) * row == y * row + row;
    var rest := rgba[y * row..];
    assert rest[..row] == rgba[y * row..(y + 1) * row] && rest[row..] == rgba[(y + 1) * row..];
  }
}
