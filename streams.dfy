/** The FILE* streams the codec writes to and reads from, and the error
    outcomes of the read path. */
module Streams {
  import opened Bytes

  /** The failures scap_savefile.c reports, one per distinct error path. */
  datatype ScapError =
    | ReadError            // CHECK_READ_SIZE: fewer bytes than requested
    | InvalidBlockType     // first block is not a section header
    | InvalidMagic         // section header magic is not 0x1a2b3c4d
    | WrongTrailer         // trailer differs from the header's block_total_length
    | InvalidStringLength  // a proc-list string length >= SCAP_MAX_PATH_SIZE
    | NegativePadding      // a proc or fd list overran its block
    | CorruptInterfaceList // an interface entry longer than the bytes left, or a long name
    | UnknownInterfaceType
    | MissingTid           // an fd-list block names a tid not in the process table
    | SeekError
    | UnexpectedBlockType  // a non-event block where an event was expected
    | BlockTooShort        // an event block shorter than header, event header and trailer
    | BlockLengthTooShort  // a metadata block shorter than its own header and trailer

  datatype Result<T> = Ok(value: T) | Err(error: ScapError)
  {
    predicate IsFailure() {
      Err?
    }

    function PropagateFailure<U>(): Result<U>
      requires Err?
    {
      Err(error)
    }

    function Extract(): T
      requires Ok?
    {
      value
    }
  }

  /** A value decoded from the file and the offset just past it. */
  datatype Parsed<T> = Parsed(value: T, next: nat)

  /** A stream operation that returned r and left the stream at pos did what the
      decoder spec describes: the same value and position, or the same error. */
  predicate Agrees<T(==)>(r: Result<T>, spec: Result<Parsed<T>>, pos: nat)
  {
    match spec
    case Ok(p) => r == Ok(p.value) && pos == p.next
    case Err(e) => r == Err(e)
  }

  /** The first n bytes of s: what a sink of capacity n keeps of the stream s. */
  function Fit(s: seq<byte>, n: nat): (r: seq<byte>)
    ensures |r| <= n && |r| <= |s|
    ensures |s| <= n ==> r == s
  {
    if |s| <= n then s else s[..n]
  }

  /** Once a stream has been cut at the sink's capacity, nothing appended later survives. */
  lemma FitAppend(a: seq<byte>, b: seq<byte>, n: nat)
    ensures Fit(Fit(a, n) + b, n) == Fit(a + b, n)
  {
    if |a| <= n {
    } else {
      assert (a + b)[..n] == a[..n];
      assert (a[..n] + b)[..n] == a[..n];
    }
  }

  /** A stream operation that updates a table and returns only a status: on
      success the table and the position are what the decoder spec describes; on
      failure the error is the spec's (the partly updated table is not described). */
  predicate Reached<T(==)>(r: Result<()>, spec: Result<Parsed<T>>, state: T, pos: nat)
  {
    match spec
    case Ok(p) => r == Ok(()) && state == p.value && pos == p.next
    case Err(e) => r == Err(e)
  }

  /** An output stream: fwrite appends, and a write that would take the stream past
      its capacity is short, which fwrite reports by returning less than requested. */
  class Sink {
    var data: seq<byte>
    const capacity: nat

    ghost predicate Valid()
      reads this
    {
      |data| <= capacity
    }

    constructor (capacity: nat)
      ensures Valid() && data == [] && this.capacity == capacity
    {
      data := [];
      this.capacity := capacity;
    }

    /** fwrite(b, 1, |b|, f) == |b| */
    method Write(b: seq<byte>) returns (ok: bool)
      requires Valid()
      modifies this
      ensures Valid()
      ensures data == Fit(old(data) + b, capacity)
      ensures ok <==> |old(data)| + |b| <= capacity
    {
      ok := |data| + |b| <= capacity;
      data := Fit(data + b, capacity);
    }
  }

  /** What fread(buf, 1, n, f) delivers at position pos: the bytes that exist. */
  function Window(file: seq<byte>, pos: nat, n: nat): (r: seq<byte>)
    ensures |r| <= n
    ensures |r| == n <==> (n == 0 || pos + n <= |file|)
    ensures pos + n <= |file| ==> r == file[pos..pos + n]
    ensures |r| == 0 <==> (n == 0 || pos >= |file|)
  {
    if pos >= |file| then []
    else if pos + n <= |file| then file[pos..pos + n]
    else file[pos..]
  }

  /** CHECK_READ_SIZE around fread: exactly n bytes or a read error. */
  function ReadBytes(file: seq<byte>, pos: nat, n: nat): (r: Result<Parsed<seq<byte>>>)
    ensures r.Ok? <==> (n == 0 || pos + n <= |file|)
    ensures r.Ok? ==> |r.value.value| == n && r.value.next == pos + n
    ensures r.Err? ==> r.error == ReadError
    ensures pos + n <= |file| ==> r == Ok(Parsed(file[pos..pos + n], pos + n))
  {
    if pos + n <= |file| then Ok(Parsed(file[pos..pos + n], pos + n))
    else if n == 0 then Ok(Parsed([], pos))
    else Err(ReadError)
  }

  function ReadU16(file: seq<byte>, pos: nat): (r: Result<Parsed<u16>>)
    ensures r.Ok? <==> pos + 2 <= |file|
    ensures r.Ok? ==> r.value.next == pos + 2
    ensures r.Err? ==> r.error == ReadError
  {
    if pos + 2 <= |file| then Ok(Parsed(U16At(file, pos), pos + 2)) else Err(ReadError)
  }

  function ReadU32(file: seq<byte>, pos: nat): (r: Result<Parsed<u32>>)
    ensures r.Ok? <==> pos + 4 <= |file|
    ensures r.Ok? ==> r.value.next == pos + 4
    ensures r.Err? ==> r.error == ReadError
  {
    if pos + 4 <= |file| then Ok(Parsed(U32At(file, pos), pos + 4)) else Err(ReadError)
  }

  function ReadU64(file: seq<byte>, pos: nat): (r: Result<Parsed<u64>>)
    ensures r.Ok? <==> pos + 8 <= |file|
    ensures r.Ok? ==> r.value.next == pos + 8
    ensures r.Err? ==> r.error == ReadError
  {
    if pos + 8 <= |file| then Ok(Parsed(U64At(file, pos), pos + 8)) else Err(ReadError)
  }

  lemma {:induction false} ReadU16At(file: seq<byte>, pos: nat, x: u16)
    requires IsAt(file, pos, EncU16(x))
    ensures ReadU16(file, pos) == Ok(Parsed(x, pos + 2))
  {
    IsAtSlice(file, pos, EncU16(x));
    U16AtEnc(file, pos, x);
  }

  lemma {:induction false} ReadU32At(file: seq<byte>, pos: nat, x: u32)
    requires IsAt(file, pos, EncU32(x))
    ensures ReadU32(file, pos) == Ok(Parsed(x, pos + 4))
  {
    IsAtSlice(file, pos, EncU32(x));
    U32AtEnc(file, pos, x);
  }

  lemma {:induction false} ReadU64At(file: seq<byte>, pos: nat, x: u64)
    requires IsAt(file, pos, EncU64(x))
    ensures ReadU64(file, pos) == Ok(Parsed(x, pos + 8))
  {
    IsAtSlice(file, pos, EncU64(x));
    U64AtEnc(file, pos, x);
  }

  /** An input stream with its file position. A position past the end is allowed
      (fseek beyond end of file succeeds); reads there deliver nothing. */
  class Source {
    const file: seq<byte>
    var pos: nat

    constructor (file: seq<byte>)
      ensures this.file == file && pos == 0
    {
      this.file := file;
      pos := 0;
    }

    /** fread(buf, 1, n, f): the bytes delivered; the position advances past them. */
    method Read(n: nat) returns (got: seq<byte>)
      modifies this
      ensures got == Window(file, old(pos), n)
      ensures pos == old(pos) + |got|
    {
      got := Window(file, pos, n);
      pos := pos + |got|;
    }

    /** fseek(f, off, SEEK_CUR): fails only when the target would precede the start. */
    method Seek(off: int) returns (ok: bool)
      modifies this
      ensures ok <==> old(pos) + off >= 0
      ensures pos == if ok then old(pos) + off else old(pos)
    {
      ok := pos + off >= 0;
      if ok {
        pos := pos + off;
      }
    }

    method ReadExact(n: nat) returns (r: Result<seq<byte>>)
      modifies this
      ensures Agrees(r, ReadBytes(file, old(pos), n), pos)
    {
      var got := Read(n);
      if |got| == n {
        r := Ok(got);
      } else {
        r := Err(ReadError);
      }
    }

    method GetU16() returns (r: Result<u16>)
      modifies this
      ensures Agrees(r, ReadU16(file, old(pos)), pos)
    {
      var got := Read(2);
      if |got| == 2 {
        r := Ok(U16At(got, 0));
      } else {
        r := Err(ReadError);
      }
    }

    method GetU32() returns (r: Result<u32>)
      modifies this
      ensures Agrees(r, ReadU32(file, old(pos)), pos)
    {
      var got := Read(4);
      if |got| == 4 {
        r := Ok(U32At(got, 0));
      } else {
        r := Err(ReadError);
      }
    }

    method GetU64() returns (r: Result<u64>)
      modifies this
      ensures Agrees(r, ReadU64(file, old(pos)), pos)
    {
      var got := Read(8);
      if |got| == 8 {
        r := Ok(U64At(got, 0));
      } else {
        r := Err(ReadError);
      }
    }
  }
}

/** Reasoning about writes that stop at the first short write. */
module SinkFacts {
  import opened Bytes
  import opened Seqs
  import opened Streams

  /** A writer that stops after a short write leaves what a writer that went on
      writing the rest of the stream would leave: the sink is already full. */
  lemma StoppedEarly(written: seq<byte>, rest: seq<byte>, n: nat)
    requires |written| > n
    ensures Fit(written + rest, n) == Fit(written, n)
  {
    assert (written + rest)[..n] == written[..n];
  }

  /** One write of a chain that returns at the first short write: either the chunk
      went in whole, or the sink holds what writing the rest of the chain as well
      would have left, and the whole chain did not fit. */
  lemma ChunkStep(prev: seq<byte>, chunk: seq<byte>, rest: seq<byte>, n: nat, data: seq<byte>, ok: bool)
    requires data == Fit(prev + chunk, n)
    requires ok <==> |prev| + |chunk| <= n
    ensures ok ==> data == prev + chunk
    ensures !ok ==> data == Fit(prev + chunk + rest, n) && |prev + chunk + rest| > n
  {
    if !ok {
      StoppedEarly(prev + chunk, rest, n);
    }
  }

  /** Appending one more record extends the concatenation by that record. */
  lemma GrowStep<T>(base: seq<byte>, xs: seq<T>, i: nat, enc: T -> seq<byte>)
    requires i < |xs|
    ensures base + ConcatMap(xs[..i], enc) + enc(xs[i]) == base + ConcatMap(xs[..i + 1], enc)
  {
    ConcatMapStep(xs, i, enc);
  }

  /** A short write of record i leaves what writing every record would leave. */
  lemma {:induction false} StopStep<T>(base: seq<byte>, xs: seq<T>, i: nat, enc: T -> seq<byte>, n: nat)
    requires i < |xs|
    requires |base + ConcatMap(xs[..i + 1], enc)| > n
    ensures Fit(base + ConcatMap(xs[..i + 1], enc), n) == Fit(base + ConcatMap(xs, enc), n)
    ensures |base| + |ConcatMap(xs, enc)| > n
  {
    ConcatMapPrefix(xs, i + 1, enc);
    StoppedEarly(base + ConcatMap(xs[..i + 1], enc), ConcatMap(xs[i + 1..], enc), n);
  }

  /** One iteration of a loop that writes enc(xs[0]), enc(xs[1]), ... and returns at
      the first short write: either the record went in whole, or the sink holds what
      writing the whole concatenation would have left, and that did not fit. */
  lemma {:induction false} RecordStep<T>(base: seq<byte>, xs: seq<T>, i: nat, enc: T -> seq<byte>, n: nat, data: seq<byte>, ok: bool)
    requires i < |xs|
    requires |base + ConcatMap(xs[..i], enc)| <= n
    requires data == Fit(base + ConcatMap(xs[..i], enc) + enc(xs[i]), n)
    requires ok <==> |base + ConcatMap(xs[..i], enc)| + |enc(xs[i])| <= n
    ensures ok ==> data == base + ConcatMap(xs[..i + 1], enc)
    ensures !ok ==> data == Fit(base + ConcatMap(xs, enc), n) && |base| + |ConcatMap(xs, enc)| > n
  {
    GrowStep(base, xs, i, enc);
    if !ok {
      StopStep(base, xs, i, enc, n);
    }
  }
}
