/** Fixed-width integers and their native-order (little-endian) byte encodings,
    as the capture file stores them with no byte-order conversion. */
module Bytes {

  type byte = x: int | 0 <= x < 0x100
  type u16 = x: int | 0 <= x < 0x1_0000
  type u32 = x: int | 0 <= x < 0x1_0000_0000
  type u64 = x: int | 0 <= x < 0x1_0000_0000_0000_0000

  const U32_MODULUS: int := 0x1_0000_0000

  /** The value an unsigned 32-bit C expression yields for the mathematical value x. */
  function Wrap32(x: int): (r: u32)
    ensures 0 <= x < U32_MODULUS ==> r == x
  {
    x % U32_MODULUS
  }

  /** A cast of an unsigned 32-bit value to int32_t. */
  function AsInt32(x: u32): (r: int)
    ensures -0x8000_0000 <= r < 0x8000_0000
    ensures r % U32_MODULUS == x
  {
    if x < 0x8000_0000 then x else x - U32_MODULUS
  }

  function Zeros(n: nat): (r: seq<byte>)
    ensures |r| == n
    ensures forall i :: 0 <= i < n ==> r[i] == 0
  {
    seq(n, _ => 0)
  }

  function EncU16(x: u16): (r: seq<byte>)
    ensures |r| == 2
  {
    [x % 0x100, x / 0x100]
  }

  function EncU32(x: u32): (r: seq<byte>)
    ensures |r| == 4
  {
    EncU16(x % 0x1_0000) + EncU16(x / 0x1_0000)
  }

  function EncU64(x: u64): (r: seq<byte>)
    ensures |r| == 8
  {
    EncU32(x % 0x1_0000_0000) + EncU32(x / 0x1_0000_0000)
  }

  /** The little-endian 16-bit value stored at offset at of s. */
  function U16At(s: seq<byte>, at: nat): u16
    requires at + 2 <= |s|
  {
    (s[at] as int + 0x100 * s[at + 1] as int) as u16
  }

  /** The little-endian 32-bit value at offset at: its low half first. */
  function U32At(s: seq<byte>, at: nat): u32
    requires at + 4 <= |s|
  {
    U16At(s, at) + 0x1_0000 * U16At(s, at + 2)
  }

  /** The little-endian 64-bit value at offset at: its low half first. */
  function U64At(s: seq<byte>, at: nat): u64
    requires at + 8 <= |s|
  {
    U32At(s, at) + 0x1_0000_0000 * U32At(s, at + 4)
  }

  /** Reading a 16-bit value where one was written gives it back. */
  lemma U16AtEnc(s: seq<byte>, at: nat, x: u16)
    requires at + 2 <= |s| && s[at..at + 2] == EncU16(x)
    ensures U16At(s, at) == x
  {
    assert s[at] == EncU16(x)[0] && s[at + 1] == EncU16(x)[1];
  }

  lemma U32AtEnc(s: seq<byte>, at: nat, x: u32)
    requires at + 4 <= |s| && s[at..at + 4] == EncU32(x)
    ensures U32At(s, at) == x
  {
    assert s[at..at + 2] == EncU32(x)[..2] == EncU16(x % 0x1_0000);
    assert s[at + 2..at + 4] == EncU32(x)[2..] == EncU16(x / 0x1_0000);
    U16AtEnc(s, at, x % 0x1_0000);
    U16AtEnc(s, at + 2, x / 0x1_0000);
  }

  lemma U64AtEnc(s: seq<byte>, at: nat, x: u64)
    requires at + 8 <= |s| && s[at..at + 8] == EncU64(x)
    ensures U64At(s, at) == x
  {
    assert s[at..at + 4] == EncU64(x)[..4] == EncU32(x % 0x1_0000_0000);
    assert s[at + 4..at + 8] == EncU64(x)[4..] == EncU32(x / 0x1_0000_0000);
    U32AtEnc(s, at, x % 0x1_0000_0000);
    U32AtEnc(s, at + 4, x / 0x1_0000_0000);
  }

  lemma U16RoundTrip(x: u16)
    ensures U16At(EncU16(x), 0) == x
  {
    assert EncU16(x)[0..2] == EncU16(x);
    U16AtEnc(EncU16(x), 0, x);
  }

  lemma U32RoundTrip(x: u32)
    ensures U32At(EncU32(x), 0) == x
  {
    assert EncU32(x)[0..4] == EncU32(x);
    U32AtEnc(EncU32(x), 0, x);
  }

  lemma U64RoundTrip(x: u64)
    ensures U64At(EncU64(x), 0) == x
  {
    assert EncU64(x)[0..8] == EncU64(x);
    U64AtEnc(EncU64(x), 0, x);
  }

  /** Distinct values have distinct encodings: a mismatching trailer is visible on disk. */
  lemma EncU32Injective(x: u32, y: u32)
    requires EncU32(x) == EncU32(y)
    ensures x == y
  {
    U32RoundTrip(x);
    U32RoundTrip(y);
  }

  /** s appears in file starting at offset pos, byte for byte. */
  predicate IsAt(file: seq<byte>, pos: nat, s: seq<byte>)
    decreases |s|
  {
    if s == [] then pos <= |file|
    else pos < |file| && file[pos] == s[0] && IsAt(file, pos + 1, s[1..])
  }

  /** s appears at pos exactly when the slice of file there is s. */
  lemma {:induction false} IsAtSlice(file: seq<byte>, pos: nat, s: seq<byte>)
    ensures IsAt(file, pos, s) <==> pos + |s| <= |file| && file[pos..pos + |s|] == s
    decreases |s|
  {
    if s != [] {
      IsAtSlice(file, pos + 1, s[1..]);
      if pos + |s| <= |file| {
        assert file[pos..pos + |s|] == [file[pos]] + file[pos + 1..pos + |s|];
        assert s == [s[0]] + s[1..];
      }
    }
  }

  lemma {:induction false} IsAtBound(file: seq<byte>, pos: nat, s: seq<byte>)
    requires IsAt(file, pos, s)
    ensures pos + |s| <= |file|
  {
    IsAtSlice(file, pos, s);
  }

  lemma {:induction false} IsAtSplit(file: seq<byte>, pos: nat, a: seq<byte>, b: seq<byte>)
    requires IsAt(file, pos, a + b)
    ensures IsAt(file, pos, a) && IsAt(file, pos + |a|, b)
  {
    IsAtSlice(file, pos, a + b);
    IsAtSlice(file, pos, a);
    IsAtSlice(file, pos + |a|, b);
    assert file[pos..pos + |a|] == (a + b)[..|a|];
    assert file[pos + |a|..pos + |a| + |b|] == (a + b)[|a|..];
  }

  lemma IsAtJoin(file: seq<byte>, pos: nat, a: seq<byte>, b: seq<byte>)
    requires IsAt(file, pos, a) && IsAt(file, pos + |a|, b)
    ensures IsAt(file, pos, a + b)
  {
    IsAtSlice(file, pos, a + b);
    IsAtSlice(file, pos, a);
    IsAtSlice(file, pos + |a|, b);
    assert file[pos..pos + |a| + |b|] == file[pos..pos + |a|] + file[pos + |a|..pos + |a| + |b|];
  }

  /** Four pieces written one after the other, each at the offset where the one before ends. */
  lemma {:induction false} IsAtSplit4(file: seq<byte>, pos: nat, a: seq<byte>, b: seq<byte>, c: seq<byte>, d: seq<byte>,
                   p1: nat, p2: nat, p3: nat)
    requires IsAt(file, pos, a + b + c + d)
    requires p1 == pos + |a| && p2 == p1 + |b| && p3 == p2 + |c|
    ensures IsAt(file, pos, a) && IsAt(file, p1, b) && IsAt(file, p2, c) && IsAt(file, p3, d)
  {
    IsAtSplit(file, pos, a + b + c, d);
    IsAtSplit(file, pos, a + b, c);
    IsAtSplit(file, pos, a, b);
  }

  lemma {:induction false} IsAtPrefix(file: seq<byte>, rest: seq<byte>, s: seq<byte>)
    requires file == s + rest
    ensures IsAt(file, 0, s)
  {
    IsAtSlice(file, 0, s);
    assert file[..|s|] == s;
  }
}

/** Concatenations of encoded records, as the writers emit them one after another. */
module Seqs {
  import opened Bytes

  /** enc(xs[0]) + enc(xs[1]) + ..., built from the right so that a loop can append. */
  function ConcatMap<T>(xs: seq<T>, enc: T -> seq<byte>): seq<byte>
  {
    if xs == [] then [] else ConcatMap(xs[..|xs| - 1], enc) + enc(xs[|xs| - 1])
  }

  /** len(xs[0]) + len(xs[1]) + ... */
  function SumLen<T>(xs: seq<T>, len: T -> nat): nat
  {
    if xs == [] then 0 else SumLen(xs[..|xs| - 1], len) + len(xs[|xs| - 1])
  }

  lemma ConcatMapStep<T>(xs: seq<T>, i: nat, enc: T -> seq<byte>)
    requires i < |xs|
    ensures ConcatMap(xs[..i + 1], enc) == ConcatMap(xs[..i], enc) + enc(xs[i])
  {
    assert xs[..i + 1][..i] == xs[..i];
  }

  lemma SumLenStep<T>(xs: seq<T>, i: nat, len: T -> nat)
    requires i < |xs|
    ensures SumLen(xs[..i + 1], len) == SumLen(xs[..i], len) + len(xs[i])
  {
    assert xs[..i + 1][..i] == xs[..i];
  }

  lemma {:induction false} ConcatMapAppend<T>(xs: seq<T>, ys: seq<T>, enc: T -> seq<byte>)
    ensures ConcatMap(xs + ys, enc) == ConcatMap(xs, enc) + ConcatMap(ys, enc)
    decreases |ys|
  {
    if ys == [] {
      assert xs + ys == xs;
    } else {
      var ys' := ys[..|ys| - 1];
      assert (xs + ys)[..|xs + ys| - 1] == xs + ys';
      ConcatMapAppend(xs, ys', enc);
    }
  }

  /** The concatenation read from the front: the first record, then the rest. */
  lemma {:induction false} ConcatMapFront<T>(xs: seq<T>, enc: T -> seq<byte>)
    requires xs != []
    ensures ConcatMap(xs, enc) == enc(xs[0]) + ConcatMap(xs[1..], enc)
  {
    assert xs == [xs[0]] + xs[1..];
    ConcatMapAppend([xs[0]], xs[1..], enc);
    assert [xs[0]][..0] == [];
  }

  /** A concatenation found in a file: its first record, then the rest right after it. */
  lemma {:induction false} ConcatMapSplitAt<T>(file: seq<byte>, pos: nat, xs: seq<T>, enc: T -> seq<byte>, next: nat)
    requires xs != [] && IsAt(file, pos, ConcatMap(xs, enc)) && next == pos + |enc(xs[0])|
    ensures IsAt(file, pos, enc(xs[0])) && IsAt(file, next, ConcatMap(xs[1..], enc))
  {
    ConcatMapFront(xs, enc);
    IsAtSplit(file, pos, enc(xs[0]), ConcatMap(xs[1..], enc));
  }

  /** The bytes before record i are a prefix of the whole concatenation. */
  lemma {:induction false} ConcatMapPrefix<T>(xs: seq<T>, i: nat, enc: T -> seq<byte>)
    requires i <= |xs|
    ensures ConcatMap(xs, enc) == ConcatMap(xs[..i], enc) + ConcatMap(xs[i..], enc)
  {
    assert xs == xs[..i] + xs[i..];
    ConcatMapAppend(xs[..i], xs[i..], enc);
  }

  /** When every record's length is what len says, the concatenation has length SumLen. */
  lemma {:induction false} ConcatMapLength<T>(xs: seq<T>, enc: T -> seq<byte>, len: T -> nat)
    requires forall x :: x in xs ==> |enc(x)| == len(x)
    ensures |ConcatMap(xs, enc)| == SumLen(xs, len)
    decreases |xs|
  {
    if xs != [] {
      var xs' := xs[..|xs| - 1];
      assert forall x :: x in xs' ==> x in xs;
      ConcatMapLength(xs', enc, len);
    }
  }

  /** The groupings of a chain of writes that the writers' proofs meet. */
  lemma Regroup3(a: seq<byte>, b: seq<byte>, c: seq<byte>, d: seq<byte>)
    ensures a + (b + c + d) == a + b + (c + d)
    ensures a + b + (c + d) == a + b + c + d
  {
  }

  lemma Regroup4(a: seq<byte>, b: seq<byte>, c: seq<byte>, d: seq<byte>, e: seq<byte>)
    ensures a + (b + c + d + e) == a + b + (c + d + e)
    ensures a + b + (c + d + e) == a + b + c + (d + e)
    ensures a + b + c + (d + e) == a + b + c + d + e
  {
  }

  lemma Regroup5(a: seq<byte>, b: seq<byte>, c: seq<byte>, d: seq<byte>, e: seq<byte>, g: seq<byte>)
    ensures a + (b + c + d + e + g) == a + b + (c + d + e + g)
    ensures a + b + (c + d + e + g) == a + b + c + (d + e + g)
    ensures a + b + c + (d + e + g) == a + b + c + d + (e + g)
    ensures a + b + c + d + (e + g) == a + b + c + d + e + g
  {
  }

  /** Summing modulo 2^32 step by step gives the sum modulo 2^32. */
  lemma Wrap32Add(a: nat, b: nat)
    ensures Wrap32(Wrap32(a) + b) == Wrap32(a + b)
  {
    var q := a / U32_MODULUS;
    assert a == q * U32_MODULUS + Wrap32(a);
    assert a + b == q * U32_MODULUS + (Wrap32(a) + b);
  }
}
