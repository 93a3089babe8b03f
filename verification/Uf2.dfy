/**
 The UF2 file that the publishing tool writes from a firmware image: 512-byte blocks that each carry 256
 bytes and the address they belong at. A reader of such files gets back every address and every byte.
 */
module Uf2 {
  import opened Bytes
  import opened Seqs
  import opened Wrappers

  const MAGIC_START_0 := 0x0A324655
  const MAGIC_START_1 := 0x9E5D5157
  const MAGIC_END := 0x0AB16F30
  /** The flag that says that the last header field is the family. */
  const FAMILY_PRESENT := 0x2000
  const NRF52840 := 0xADA52840
  const PAYLOAD := 256
  const ROOM := 476

  /** `struct.pack` refuses a number that does not fit its field. */
  datatype PackError = OutOfRange

  datatype AnyBlock = Block(flags: nat, address: nat, number: nat, total: nat, family: nat, data: seq<byte>)

  predicate InField(n: int)
  {
    0 <= n < 0x1_0000_0000
  }

  /** The numbers fit 32 bits, and the payload its place. */
  predicate Writable(b: AnyBlock)
  {
    && InField(b.flags) && InField(b.address) && InField(b.number)
    && InField(b.total) && InField(b.family) && |b.data| <= ROOM
  }

  type Block = b: AnyBlock | Writable(b) witness Block(0, 0, 0, 0, 0, [])

  // ---------------------------------------------------------------- reading

  function Field(b: seq<byte>, i: nat): (n: nat)
    requires |b| == 512 && i < 128
  {
    FromLe32(b[4 * i..4 * i + 4])
  }

  /** One block, as the bootloader reads it: three magic numbers, a payload size that fits, the payload. */
  function ReadBlock(b: seq<byte>): (r: Option<Block>)
  {
    if |b| != 512 then None
    else if Field(b, 0) != MAGIC_START_0 || Field(b, 1) != MAGIC_START_1 || Field(b, 127) != MAGIC_END then None
    else if Field(b, 4) > ROOM then None
    else Some(Block(Field(b, 2), Field(b, 3), Field(b, 5), Field(b, 6), Field(b, 7), b[32..32 + Field(b, 4)]))
  }

  /** A whole file in pieces of 512 bytes; one bad or unfinished piece spoils it. */
  function ReadEach<T>(read: seq<byte> -> Option<T>, f: seq<byte>): (r: Option<seq<T>>)
    decreases |f|
  {
    if f == [] then Some([])
    else if |f| < 512 then None
    else
      match (read(f[..512]), ReadEach(read, f[512..]))
      case (Some(b), Some(more)) => Some([b] + more)
      case _ => None
  }

  function ReadFile(f: seq<byte>): (r: Option<seq<Block>>)
  {
    ReadEach(ReadBlock, f)
  }

  /** What ends up in flash: the payloads, one after another. */
  function Flashed(blocks: seq<Block>): (image: seq<byte>)
  {
    if blocks == [] then [] else blocks[0].data + Flashed(blocks[1..])
  }

  // ---------------------------------------------------------------- writing

  function Header(b: Block): (h: seq<byte>)
  {
    Le32(MAGIC_START_0) + Le32(MAGIC_START_1) + Le32(b.flags) + Le32(b.address)
    + Le32(|b.data|) + Le32(b.number) + Le32(b.total) + Le32(b.family)
  }

  function WriteBlock(b: Block): (f: seq<byte>)
    ensures |f| == 512
  {
    Header(b) + b.data + ZeroBytes(ROOM - |b.data|) + Le32(MAGIC_END)
  }

  function WriteEach<T>(write: T -> seq<byte>, xs: seq<T>): (f: seq<byte>)
  {
    if xs == [] then [] else WriteEach(write, xs[..|xs| - 1]) + write(xs[|xs| - 1])
  }

  function WriteFile(blocks: seq<Block>): (f: seq<byte>)
  {
    WriteEach(WriteBlock, blocks)
  }

  lemma HeaderFields(b: Block)
    ensures var h := Header(b);
            h[0..4] == Le32(MAGIC_START_0) && h[4..8] == Le32(MAGIC_START_1) && h[8..12] == Le32(b.flags)
            && h[12..16] == Le32(b.address) && h[16..20] == Le32(|b.data|) && h[20..24] == Le32(b.number)
            && h[24..28] == Le32(b.total) && h[28..32] == Le32(b.family)
  {
  }

  lemma BlockParts(b: Block)
    ensures var f := WriteBlock(b);
            f[..32] == Header(b) && f[32..32 + |b.data|] == b.data && f[508..512] == Le32(MAGIC_END)
  {
  }

  lemma FieldOfHeader(b: Block, i: nat)
    requires i < 8
    ensures WriteBlock(b)[4 * i..4 * i + 4] == Header(b)[4 * i..4 * i + 4]
  {
    BlockParts(b);
  }

  lemma BlockRoundTrip(b: Block)
    ensures ReadBlock(WriteBlock(b)) == Some(b)
  {
    HeaderFields(b);
    BlockParts(b);
    forall i | 0 <= i < 8
      ensures WriteBlock(b)[4 * i..4 * i + 4] == Header(b)[4 * i..4 * i + 4]
    {
      FieldOfHeader(b, i);
    }
    Le32Back(MAGIC_START_0);
    Le32Back(MAGIC_START_1);
    Le32Back(MAGIC_END);
    Le32Back(|b.data|);
    Le32Back(b.flags);
    Le32Back(b.address);
    Le32Back(b.number);
    Le32Back(b.total);
    Le32Back(b.family);
  }

  lemma {:induction false} ReadSnoc<T>(read: seq<byte> -> Option<T>, f: seq<byte>, g: seq<byte>, xs: seq<T>)
    requires ReadEach(read, f) == Some(xs) && |g| == 512 && read(g).Some?
    ensures ReadEach(read, f + g) == Some(xs + [read(g).value])
    decreases |f|
  {
    if f == [] {
      Empty(g);
      assert g[..512] == g && g[512..] == [];
      assert ReadEach(read, g[512..]) == Some([]);
      Empty([read(g).value]);
    } else {
      var more := ReadEach(read, f[512..]).value;
      assert (f + g)[..512] == f[..512] && (f + g)[512..] == f[512..] + g;
      ReadSnoc(read, f[512..], g, more);
      Assoc([read(f[..512]).value], more, [read(g).value]);
    }
  }

  ghost predicate Undoes<T(!new)>(read: seq<byte> -> Option<T>, write: T -> seq<byte>)
  {
    forall x :: |write(x)| == 512 && read(write(x)) == Some(x)
  }

  lemma {:induction false} EachRoundTrip<T(!new)>(read: seq<byte> -> Option<T>, write: T -> seq<byte>, xs: seq<T>)
    requires Undoes(read, write)
    ensures ReadEach(read, WriteEach(write, xs)) == Some(xs) && |WriteEach(write, xs)| == 512 * |xs|
  {
    if xs != [] {
      var n := |xs| - 1;
      EachRoundTrip(read, write, xs[..n]);
      assert read(write(xs[n])) == Some(xs[n]);
      assert xs == xs[..n] + [xs[n]];
      ReadSnoc(read, WriteEach(write, xs[..n]), write(xs[n]), xs[..n]);
    }
  }

  /** Reading back what was written. */
  lemma FileRoundTrip(blocks: seq<Block>)
    ensures ReadFile(WriteFile(blocks)) == Some(blocks) && |WriteFile(blocks)| == 512 * |blocks|
  {
    forall b: Block
      ensures |WriteBlock(b)| == 512 && ReadBlock(WriteBlock(b)) == Some(b)
    {
      BlockRoundTrip(b);
    }
    EachRoundTrip(ReadBlock, WriteBlock, blocks);
  }

  // ------------------------------------------------------- an image in blocks

  function Count(image: seq<byte>): (n: nat)
  {
    (|image| + PAYLOAD - 1) / PAYLOAD
  }

  /** `binary[i:i + 256].ljust(256, b"\x00")` */
  function Chunk(image: seq<byte>, n: nat): (c: seq<byte>)
    requires n < Count(image)
  {
    var end := if PAYLOAD * (n + 1) <= |image| then PAYLOAD * (n + 1) else |image|;
    var c := image[PAYLOAD * n..end];
    c + ZeroBytes(PAYLOAD - |c|)
  }

  function Padded(image: seq<byte>): (p: seq<byte>)
  {
    image + ZeroBytes(PAYLOAD * Count(image) - |image|)
  }

  /** The first `n` blocks have addresses and numbers that fit their fields. */
  predicate FitsTo(image: seq<byte>, start: int, n: nat)
  {
    n == 0 || (InField(start) && InField(start + PAYLOAD * (n - 1)) && InField(Count(image)))
  }

  /** The whole image lies below 2^32. */
  predicate Fits(image: seq<byte>, start: int)
  {
    image == [] || (0 <= start && start + PAYLOAD * (Count(image) - 1) < 0x1_0000_0000)
  }

  /** The first `n` blocks of an image: consecutive numbers, contiguous addresses. */
  function BlocksTo(image: seq<byte>, start: int, n: nat): (blocks: seq<Block>)
    requires n <= Count(image) && FitsTo(image, start, n)
    ensures |blocks| == n
  {
    seq(n, k requires 0 <= k < n =>
      Block(FAMILY_PRESENT, start + PAYLOAD * k, k, Count(image), NRF52840, Chunk(image, k)))
  }

  function Blocks(image: seq<byte>, start: int): (blocks: seq<Block>)
    requires Fits(image, start)
  {
    BlocksTo(image, start, Count(image))
  }

  lemma {:induction false} FlashedFrom(image: seq<byte>, start: int, n: nat)
    requires Fits(image, start) && n <= Count(image)
    ensures Flashed(Blocks(image, start)[n..]) == Padded(image)[PAYLOAD * n..]
    decreases Count(image) - n
  {
    var blocks := Blocks(image, start);
    if n < Count(image) {
      FlashedFrom(image, start, n + 1);
      assert blocks[n..][1..] == blocks[n + 1..];
      var p := Padded(image);
      assert p[PAYLOAD * n..] == p[PAYLOAD * n..PAYLOAD * (n + 1)] + p[PAYLOAD * (n + 1)..];
    }
  }

  /** What a bootloader flashes from the file is the image, padded with zeros to whole payloads. */
  lemma ImageRoundTrip(image: seq<byte>, start: int)
    requires Fits(image, start)
    ensures var read := ReadFile(WriteFile(Blocks(image, start)));
            read.Some? && Flashed(read.value) == Padded(image)
    ensures |Padded(image)| - |image| < PAYLOAD
  {
    FileRoundTrip(Blocks(image, start));
    FlashedFrom(image, start, 0);
    assert Blocks(image, start)[0..] == Blocks(image, start);
  }

  // -------------------------------------------------------------- `make_uf2`

  /** `[binary[i:i + 256] for i in range(0, len(binary), 256)]` */
  method Cut(image: seq<byte>) returns (chunks: seq<seq<byte>>)
    ensures |chunks| == Count(image)
    ensures forall k :: 0 <= k < |chunks| ==>
      |chunks[k]| <= PAYLOAD && Chunk(image, k) == chunks[k] + ZeroBytes(PAYLOAD - |chunks[k]|)
  {
    chunks := [];
    var i := 0;
    while i < |image|
      invariant 0 <= i && i == PAYLOAD * |chunks| && |chunks| <= Count(image)
      invariant forall k :: 0 <= k < |chunks| ==>
        |chunks[k]| <= PAYLOAD && Chunk(image, k) == chunks[k] + ZeroBytes(PAYLOAD - |chunks[k]|)
    {
      chunks := chunks + [image[i..if i + PAYLOAD <= |image| then i + PAYLOAD else |image|]];
      i := i + PAYLOAD;
    }
  }

  lemma OneMore(image: seq<byte>, start: int, n: nat)
    requires n < Count(image) && FitsTo(image, start, n) && FitsTo(image, start, n + 1)
    ensures var b := Block(FAMILY_PRESENT, start + PAYLOAD * n, n, Count(image), NRF52840, Chunk(image, n));
            WriteFile(BlocksTo(image, start, n + 1)) == WriteFile(BlocksTo(image, start, n)) + WriteBlock(b)
  {
    var b := Block(FAMILY_PRESENT, start + PAYLOAD * n, n, Count(image), NRF52840, Chunk(image, n));
    assert BlocksTo(image, start, n + 1) == BlocksTo(image, start, n) + [b];
  }

  /** The file is refused exactly when the image does not fit below 2^32; otherwise it reads back as the image. */
  method MakeUf2(image: seq<byte>, start: int) returns (r: Result<seq<byte>, PackError>)
    ensures r.Success? <==> Fits(image, start)
    ensures r.Success? ==> r.value == WriteFile(Blocks(image, start)) && |r.value| == 512 * Count(image)
  {
    var chunks := Cut(image);
    var out: seq<byte> := [];
    var n := 0;
    while n < |chunks|
      invariant n <= |chunks|
      invariant FitsTo(image, start, n)
      invariant out == WriteFile(BlocksTo(image, start, n))
    {
      var chunk := chunks[n] + ZeroBytes(PAYLOAD - |chunks[n]|);
      var address := start + n * PAYLOAD;
      if !InField(address) || !InField(n) || !InField(|chunks|) {
        return Failure(OutOfRange);
      }
      OneMore(image, start, n);
      out := out + WriteBlock(Block(FAMILY_PRESENT, address, n, |chunks|, NRF52840, chunk));
      n := n + 1;
    }
    FileRoundTrip(Blocks(image, start));
    return Success(out);
  }
}
