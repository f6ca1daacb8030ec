/** Block framing shared by every block of a capture file:
    u32 type | u32 total length | payload | zero padding | u32 trailer. */
module Block {
  import opened Bytes

  const BLOCK_HEADER_SIZE: nat := 8
  const SECTION_HEADER_SIZE: nat := 16
  const TRAILER_SIZE: nat := 4

  // Block type tags and version numbers are defined in scap_savefile.h, which is
  // not part of this model; the values below are placeholders that only need to
  // be pairwise distinct.
  const SHB_BLOCK_TYPE: u32 := 0x0A0D0D0A
  const MI_BLOCK_TYPE: u32 := 0x201
  const PL_BLOCK_TYPE: u32 := 0x202
  const FDL_BLOCK_TYPE: u32 := 0x203
  const EV_BLOCK_TYPE: u32 := 0x204
  const IL_BLOCK_TYPE: u32 := 0x205
  const CURRENT_MAJOR_VERSION: u16 := 1
  const CURRENT_MINOR_VERSION: u16 := 0

  const SHB_MAGIC: u32 := 0x1a2b3c4d
  /** The "unknown length" section length written by the dumper. */
  const SECTION_LENGTH_UNKNOWN: u64 := 0xffff_ffff_ffff_ffff

  /** scap_normalize_block_len: ((n + 3) >> 2) << 2 in 32-bit unsigned arithmetic. */
  function NormalizeBlockLen(n: u32): (r: u32)
    ensures r % 4 == 0
    ensures n <= U32_MODULUS - 4 ==> n <= r < n + 4
    ensures n > U32_MODULUS - 4 ==> r == 0
  {
    (Wrap32(n + 3) / 4) * 4
  }

  /** The count scap_write_padding passes to fwrite: normalize(n) - n, computed in u32. */
  function PaddingLen(n: u32): (r: nat)
    ensures r < 4
    ensures (n + r) % U32_MODULUS == NormalizeBlockLen(n)
    ensures n <= U32_MODULUS - 4 ==> n + r == NormalizeBlockLen(n)
  {
    Wrap32(NormalizeBlockLen(n) - n)
  }

  /** The zero bytes scap_write_padding appends after n payload bytes. */
  function Padding(n: u32): (r: seq<byte>)
    ensures |r| == PaddingLen(n)
  {
    Zeros(PaddingLen(n))
  }

  /** block_total_length stored for a block whose payload length is declared as d:
      normalize(sizeof(block_header) + d + 4), the sum truncated to u32. */
  function TotalLength(d: nat): u32
  {
    NormalizeBlockLen(Wrap32(BLOCK_HEADER_SIZE + d + TRAILER_SIZE))
  }

  /** The bytes of a block whose header declares payload length d and whose
      writer then emits body, padding for d and the trailer. */
  function Framed(blockType: u32, d: nat, body: seq<byte>): seq<byte>
  {
    EncU32(blockType) + EncU32(TotalLength(d)) + body + Padding(Wrap32(d)) + EncU32(TotalLength(d))
  }

  /** The block as its writers emit it: the total length computed once, in u32. */
  lemma FramedAsWritten(blockType: u32, d: u32, body: seq<byte>, total: u32)
    requires total == NormalizeBlockLen(Wrap32(BLOCK_HEADER_SIZE + d + TRAILER_SIZE))
    ensures Framed(blockType, d, body) == EncU32(blockType) + EncU32(total) + body + Padding(d) + EncU32(total)
  {
    assert Wrap32(d) == d;
  }

  /** Blocks whose declared length is small enough for the u32 arithmetic not to wrap. */
  predicate Fits(d: nat)
  {
    BLOCK_HEADER_SIZE + d + TRAILER_SIZE <= U32_MODULUS - 4
  }

  /** Normalising the whole block agrees with normalising the payload and adding
      the header and trailer, because both of those are multiples of 4. */
  lemma TotalLengthIsPaddedPayload(d: nat)
    requires Fits(d)
    ensures TotalLength(d) == BLOCK_HEADER_SIZE + d + PaddingLen(d) + TRAILER_SIZE
    ensures TotalLength(d) - BLOCK_HEADER_SIZE - TRAILER_SIZE == NormalizeBlockLen(d)
  {
    var n := BLOCK_HEADER_SIZE + d + TRAILER_SIZE;
    var r := NormalizeBlockLen(n);
    var p := PaddingLen(d);
    assert NormalizeBlockLen(d) == d + p;
    assert (d + p) % 4 == 0;
    assert n <= r < n + 4 && r % 4 == 0;
    assert (n + p) % 4 == 0;
    assert r == n + p;
  }

  /** Framing invariant of every writer: when the body has the declared length, the
      block occupies exactly block_total_length bytes, that length is a multiple of
      4, the padding is zero and has length normalize(d) - d, and the trailer equals
      the header's total length. */
  lemma FramedLayout(blockType: u32, d: nat, body: seq<byte>)
    requires |body| == d && Fits(d)
    ensures var b := Framed(blockType, d, body);
      && |b| == TotalLength(d)
      && |b| % 4 == 0
      && b[..4] == EncU32(blockType)
      && b[4..8] == EncU32(|b|)
      && b[8..8 + d] == body
      && b[8 + d..|b| - 4] == Zeros(NormalizeBlockLen(d) - d)
      && b[|b| - 4..] == EncU32(|b|)
  {
    TotalLengthIsPaddedPayload(d);
    var b := Framed(blockType, d, body);
    var t := EncU32(TotalLength(d));
    assert b == EncU32(blockType) + t + body + Padding(d) + t;
    assert b[..4] == EncU32(blockType);
    assert b[4..8] == t;
    assert b[8..8 + d] == body;
    assert b[8 + d..|b| - 4] == Padding(d);
    assert b[|b| - 4..] == t;
  }

  /** What a reader relies on: a block is a whole number of 4-byte words, at least
      header plus trailer long, and both its length fields hold its byte count. */
  predicate SelfFramed(b: seq<byte>)
  {
    && 12 <= |b| < U32_MODULUS
    && |b| % 4 == 0
    && b[4..8] == EncU32(|b|)
    && b[|b| - 4..] == EncU32(|b|)
  }

  lemma FramedIsSelfFramed(blockType: u32, d: nat, body: seq<byte>)
    requires |body| == d && Fits(d)
    ensures SelfFramed(Framed(blockType, d, body))
  {
    FramedLayout(blockType, d, body);
  }

}
