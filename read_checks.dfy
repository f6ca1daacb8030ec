/** The checks of the read path: what scap_read_init, the block readers and
    scap_next_offline reject, and what each accepts. */
module ReadChecks {
  import opened Bytes
  import opened Seqs
  import opened Block
  import opened Streams
  import opened Tables
  import opened SaveWrite
  import opened SaveRead
  import RoundTrip

  /** A u32 field at the start of the bytes read at pos. */
  lemma FieldOfRead(file: seq<byte>, pos: nat, n: nat, at: nat, x: u32)
    requires pos + n <= |file| && at + 4 <= n && IsAt(file, pos + at, EncU32(x))
    ensures U32At(file[pos..pos + n], at) == x
  {
    IsAtSlice(file, pos + at, EncU32(x));
    var w := file[pos..pos + n];
    forall i | at <= i < at + 4 ensures w[i] == file[pos + i] {
    }
    assert w[at..at + 4] == file[pos + at..pos + at + 4];
    U32AtEnc(file[pos..pos + n], at, x);
  }

  // ---------------------------------------------------------------------------
  // The section header

  /** scap_read_init at offset pos: a file too short for the three section-header
      structures is a read error; then the block type is checked, then the magic;
      a section header that passes both leads to the metadata loop right after it. */
  lemma {:induction false} ReadInitChecks(file: seq<byte>, pos: nat, st: Meta, blockType: u32, magic: u32)
    requires IsAt(file, pos, EncU32(blockType)) && IsAt(file, pos + BLOCK_HEADER_SIZE, EncU32(magic))
    ensures |file| < pos + 28 ==> ReadInitSpec(file, pos, st) == Err(ReadError)
    ensures pos + 28 <= |file| && blockType != SHB_BLOCK_TYPE ==> ReadInitSpec(file, pos, st) == Err(InvalidBlockType)
    ensures pos + 28 <= |file| && blockType == SHB_BLOCK_TYPE && magic != SHB_MAGIC ==>
              ReadInitSpec(file, pos, st) == Err(InvalidMagic)
    ensures pos + 28 <= |file| && blockType == SHB_BLOCK_TYPE && magic == SHB_MAGIC ==>
              ReadInitSpec(file, pos, st) == ReadMetadata(file, pos + 28, st)
  {
    if pos + 28 <= |file| {
      FieldOfRead(file, pos, BLOCK_HEADER_SIZE, 0, blockType);
      FieldOfRead(file, pos + BLOCK_HEADER_SIZE, SECTION_HEADER_SIZE, 0, magic);
    }
  }

  // ---------------------------------------------------------------------------
  // One turn of the metadata loop

  /** After a block body, the trailer decides: equal to the header's total length,
      the loop goes on after it; different, scap_read_init fails. */
  lemma {:induction false} TrailerChecked(file: seq<byte>, pos: nat, st: Meta, blockType: u32, total: u32,
                       st': Meta, n: nat, trailer: u32, next: nat)
    requires IsAt(file, pos, EncU32(blockType) + EncU32(total)) && blockType != EV_BLOCK_TYPE
    requires ReadBlockBody(file, pos + BLOCK_HEADER_SIZE, blockType, total, st) == Ok(Parsed(st', n))
    requires IsAt(file, n, EncU32(trailer)) && next == n + TRAILER_SIZE
    ensures MetadataTurn(file, pos, st) == if trailer == total then Ok(Go(st', next)) else Err(WrongTrailer)
  {
    IsAtBound(file, pos, EncU32(blockType) + EncU32(total));
    IsAtSplit(file, pos, EncU32(blockType), EncU32(total));
    FieldOfRead(file, pos, BLOCK_HEADER_SIZE, 0, blockType);
    FieldOfRead(file, pos, BLOCK_HEADER_SIZE, 4, total);
    ReadU32At(file, n, trailer);
  }

  /** A trailer that differs from the header's total length ends the metadata
      loop, and scap_read_init with it, in an error. */
  lemma {:induction false} WrongTrailerFails(file: seq<byte>, pos: nat, st: Meta, blockType: u32, total: u32,
                          st': Meta, n: nat, trailer: u32)
    requires IsAt(file, pos, EncU32(blockType) + EncU32(total)) && blockType != EV_BLOCK_TYPE
    requires ReadBlockBody(file, pos + BLOCK_HEADER_SIZE, blockType, total, st) == Ok(Parsed(st', n))
    requires IsAt(file, n, EncU32(trailer)) && trailer != total
    ensures ReadMetadata(file, pos, st) == Err(WrongTrailer)
  {
    TrailerChecked(file, pos, st, blockType, total, st', n, trailer, n + TRAILER_SIZE);
  }

  /** A block of a type the loop does not know: as written, its body is skipped by
      seeking block_total_length - 12 bytes from the end of its header, backwards
      when the total is below 12 and failing only before the start of the file;
      the corrected default arm rejects a total below 12 and otherwise seeks the
      same way. Either leaves the tables as they are. */
  lemma UnknownBlockSkipped(file: seq<byte>, pos: nat, st: Meta, blockType: u32, total: u32)
    requires blockType !in {MI_BLOCK_TYPE, PL_BLOCK_TYPE, FDL_BLOCK_TYPE, IL_BLOCK_TYPE}
    ensures pos + total >= TRAILER_SIZE ==>
              ReadBlockBodyAsWritten(file, pos + BLOCK_HEADER_SIZE, blockType, total, st) == Ok(Parsed(st, pos + total - TRAILER_SIZE))
    ensures pos + total < TRAILER_SIZE ==>
              ReadBlockBodyAsWritten(file, pos + BLOCK_HEADER_SIZE, blockType, total, st) == Err(SeekError)
    ensures total >= BLOCK_HEADER_SIZE + TRAILER_SIZE ==>
              ReadBlockBody(file, pos + BLOCK_HEADER_SIZE, blockType, total, st) == Ok(Parsed(st, pos + total - TRAILER_SIZE))
    ensures total < BLOCK_HEADER_SIZE + TRAILER_SIZE ==>
              ReadBlockBody(file, pos + BLOCK_HEADER_SIZE, blockType, total, st) == Err(BlockLengthTooShort)
  {
  }

  /** The one turn of the metadata loop over an unknown block that is framed: the
      tables stay as they are and the loop goes on after the block. */
  lemma {:induction false} UnknownBlockTurn(file: seq<byte>, pos: nat, st: Meta, blockType: u32, total: u32)
    requires blockType !in {MI_BLOCK_TYPE, PL_BLOCK_TYPE, FDL_BLOCK_TYPE, IL_BLOCK_TYPE, EV_BLOCK_TYPE}
    requires total >= BLOCK_HEADER_SIZE + TRAILER_SIZE
    requires IsAt(file, pos, EncU32(blockType) + EncU32(total)) && IsAt(file, pos + total - TRAILER_SIZE, EncU32(total))
    ensures MetadataTurn(file, pos, st) == Ok(Go(st, pos + total))
  {
    UnknownBlockSkipped(file, pos, st, blockType, total);
    TrailerChecked(file, pos, st, blockType, total, st, pos + total - TRAILER_SIZE, total, pos + total);
  }

  // ---------------------------------------------------------------------------
  // The block readers

  /** A process-list string whose length field is SCAP_MAX_PATH_SIZE or more is
      rejected before its bytes are read. */
  lemma {:induction false} LongStringRejected(file: seq<byte>, pos: nat, len: u16)
    requires IsAt(file, pos, EncU16(len)) && len >= SCAP_MAX_PATH_SIZE
    ensures ReadStr(file, pos) == Err(InvalidStringLength)
  {
    ReadU16At(file, pos, len);
  }

  /** An fd-list block naming a tid that is not in the process table is rejected,
      and so is the whole metadata loop that reaches it. */
  lemma {:induction false} MissingTidRejected(file: seq<byte>, pos: nat, blockLength: u32, procs: seq<ThreadInfo>, tid: u64)
    requires IsAt(file, pos, EncU64(tid)) && FindTid(procs, tid).None?
    ensures ReadFdBlock(file, pos, blockLength, procs) == Err(MissingTid)
  {
    ReadU64At(file, pos, tid);
  }

  /** The size scap_read_iflist gives the entry at offset at: the fixed part of
      its family, IPv4 or otherwise IPv6, plus the name length. */
  function IfEntrySize(buf: seq<byte>, at: nat): nat
    requires at + 4 <= |buf|
  {
    (if IfTypeAt(buf, at) == SCAP_FD_IPV4_SOCK then IPV4_ENTRY_FIXED else IPV6_ENTRY_FIXED) + IfNameLenAt(buf, at)
  }

  /** The bytes from offset from up to offset to are interface entries that both
      passes accept: each of a known family, with a name shorter than
      SCAP_MAX_PATH_SIZE, and within the buffer. */
  ghost predicate IfRun(buf: seq<byte>, from: nat, to: nat)
    decreases |buf| - from
  {
    || from == to
    || (&& from + 4 <= |buf|
        && (IfTypeAt(buf, from) == SCAP_FD_IPV4_SOCK || IfTypeAt(buf, from) == SCAP_FD_IPV6_SOCK)
        && IfNameLenAt(buf, from) < SCAP_MAX_PATH_SIZE
        && from + IfEntrySize(buf, from) <= |buf|
        && IfRun(buf, from + IfEntrySize(buf, from), to))
  }

  /** The first pass walks over a run of good entries, counting them. */
  lemma {:induction false} IfRunCount(buf: seq<byte>, from: nat, to: nat, c4: nat, c6: nat) returns (d4: nat, d6: nat)
    requires from <= |buf| && IfRun(buf, from, to)
    ensures to <= |buf|
    ensures IfCount(buf, from, c4, c6) == IfCount(buf, to, c4 + d4, c6 + d6)
    decreases |buf| - from
  {
    if from == to {
      return 0, 0;
    }
    var next := from + IfEntrySize(buf, from);
    if IfTypeAt(buf, from) == SCAP_FD_IPV4_SOCK {
      d4, d6 := IfRunCount(buf, next, to, c4 + 1, c6);
      d4 := d4 + 1;
    } else {
      d4, d6 := IfRunCount(buf, next, to, c4, c6 + 1);
      d6 := d6 + 1;
    }
  }

  /** The second pass walks over a run of good entries, decoding them. */
  lemma {:induction false} IfRunFill(buf: seq<byte>, from: nat, to: nat, v4: seq<IfInfo4>, v6: seq<IfInfo6>)
    returns (w4: seq<IfInfo4>, w6: seq<IfInfo6>)
    requires from <= |buf| && IfRun(buf, from, to)
    ensures to <= |buf|
    ensures IfFill(buf, from, v4, v6) == IfFill(buf, to, w4, w6)
    decreases |buf| - from
  {
    if from == to {
      return v4, v6;
    }
    var next := from + IfEntrySize(buf, from);
    if IfTypeAt(buf, from) == SCAP_FD_IPV4_SOCK {
      w4, w6 := IfRunFill(buf, next, to, v4 + [DecIf4(buf, from)], v6);
    } else {
      w4, w6 := IfRunFill(buf, next, to, v4, v6 + [DecIf6(buf, from)]);
    }
  }

  /** An interface entry of a type that is neither IPv4 nor IPv6, wherever the
      entries before it lead, fails the list in the first pass, as written and as
      corrected. */
  lemma {:induction false} UnknownInterfaceRejected(buf: seq<byte>, at: nat)
    requires |buf| < U32_MODULUS && IfRun(buf, 0, at) && at + 4 <= |buf|
    requires IfTypeAt(buf, at) != SCAP_FD_IPV4_SOCK && IfTypeAt(buf, at) != SCAP_FD_IPV6_SOCK
    ensures IlDecode(buf) == Err(UnknownInterfaceType)
    ensures IlDecodeAsWritten(buf, |buf|) == Err(UnknownInterfaceType)
  {
    var d4, d6 := IfRunCount(buf, 0, at, 0, 0);
  }

  /** An entry that runs past the block, wherever the entries before it lead, fails
      the list in the first pass. */
  lemma {:induction false} OverlongInterfaceRejected(buf: seq<byte>, at: nat)
    requires |buf| < U32_MODULUS && IfRun(buf, 0, at) && at + 4 <= |buf|
    requires || (IfTypeAt(buf, at) == SCAP_FD_IPV4_SOCK && |buf| - at < IPV4_ENTRY_FIXED + IfNameLenAt(buf, at))
             || (IfTypeAt(buf, at) == SCAP_FD_IPV6_SOCK && |buf| - at < IPV6_ENTRY_FIXED + IfNameLenAt(buf, at))
    ensures IlDecode(buf) == Err(CorruptInterfaceList)
    ensures IlDecodeAsWritten(buf, |buf|) == Err(CorruptInterfaceList)
  {
    var d4, d6 := IfRunCount(buf, 0, at, 0, 0);
  }

  /** A name length of SCAP_MAX_PATH_SIZE or more, wherever the entries before it
      lead, fails the list in the second pass, even when the first pass accepted
      it. */
  lemma {:induction false} LongInterfaceNameRejected(buf: seq<byte>, at: nat)
    requires |buf| < U32_MODULUS && IfCount(buf, 0, 0, 0).Ok?
    requires IfRun(buf, 0, at) && at + 4 <= |buf| && IfNameLenAt(buf, at) >= SCAP_MAX_PATH_SIZE
    ensures IlDecode(buf) == Err(CorruptInterfaceList)
    ensures IlDecodeAsWritten(buf, |buf|) == Err(CorruptInterfaceList)
  {
    var w4, w6 := IfRunFill(buf, 0, at, [], []);
  }

  /** When both passes succeed, the first pass counted exactly the entries the
      second decoded, family by family, and the second appended them in order. */
  lemma {:induction false} CountsMatchFill(buf: seq<byte>, tot: nat, v4: seq<IfInfo4>, v6: seq<IfInfo6>)
    requires tot <= |buf| && IfCount(buf, tot, |v4|, |v6|).Ok? && IfFill(buf, tot, v4, v6).Ok?
    ensures var (c4, c6) := IfCount(buf, tot, |v4|, |v6|).value;
            var (w4, w6, _) := IfFill(buf, tot, v4, v6).value;
            c4 == |w4| && c6 == |w6| && v4 <= w4 && v6 <= w6
    decreases |buf| - tot
  {
    if |buf| - tot >= 4 {
      var len := IfNameLenAt(buf, tot);
      if IfTypeAt(buf, tot) == SCAP_FD_IPV4_SOCK {
        CountsMatchFill(buf, tot + IPV4_ENTRY_FIXED + len, v4 + [DecIf4(buf, tot)], v6);
      } else {
        CountsMatchFill(buf, tot + IPV6_ENTRY_FIXED + len, v4, v6 + [DecIf6(buf, tot)]);
      }
    }
  }

  /** The counts scap_read_iflist allocates for are the lengths of the lists it fills. */
  lemma {:induction false} DecodedCounts(buf: seq<byte>)
    requires |buf| < U32_MODULUS && IlDecode(buf).Ok?
    ensures IfCount(buf, 0, 0, 0) == Ok((|IlDecode(buf).value.v4|, |IlDecode(buf).value.v6|))
  {
    CountsMatchFill(buf, 0, [], []);
  }

  // ---------------------------------------------------------------------------
  // Events

  /** scap_next_offline at a block header: only an event block long enough for the
      event header is read; its body gives the cpu id and the event. */
  lemma {:induction false} NextEventChecks(file: seq<byte>, pos: nat, blockType: u32, total: u32)
    requires IsAt(file, pos, EncU32(blockType) + EncU32(total))
    ensures blockType != EV_BLOCK_TYPE ==> NextEvent(file, pos) == Err(UnexpectedBlockType)
    ensures blockType == EV_BLOCK_TYPE && total < BLOCK_HEADER_SIZE + EVENT_HEADER_SIZE + TRAILER_SIZE ==>
              NextEvent(file, pos) == Err(BlockTooShort)
    ensures blockType == EV_BLOCK_TYPE && total >= BLOCK_HEADER_SIZE + EVENT_HEADER_SIZE + TRAILER_SIZE ==>
              (NextEvent(file, pos).Ok? <==> pos + total <= |file|)
  {
    IsAtBound(file, pos, EncU32(blockType) + EncU32(total));
    IsAtSplit(file, pos, EncU32(blockType), EncU32(total));
    FieldOfRead(file, pos, BLOCK_HEADER_SIZE, 0, blockType);
    FieldOfRead(file, pos, BLOCK_HEADER_SIZE, 4, total);
  }

  /** A header cut short by the end of the file is an error, not the end of the file. */
  lemma PartialHeaderRejected(file: seq<byte>, pos: nat)
    requires pos < |file| < pos + BLOCK_HEADER_SIZE
    ensures NextEvent(file, pos) == Err(ReadError)
  {
  }

  // ---------------------------------------------------------------------------
  // The read path as written, and the two places where it departs from the model

  /** The interface arm as written is the model's, with totlen replaced by
      block_length. */
  lemma IlBlockAsWritten(file: seq<byte>, pos: nat, blockLength: u32)
    ensures var c := ReadIlBlock(file, pos, blockLength);
            ReadIlBlockAsWritten(file, pos, blockLength)
              == if c.Ok? then Ok(Parsed(c.value.value.(totlen := blockLength), c.value.next)) else Err(c.error)
  {
  }

  /** The switch as written agrees with the model's on every block except an
      interface list, whose totlen it sets to block_length, and an unknown block
      with a total below 12, which it does not reject. */
  lemma {:induction false} BodyAsWritten(file: seq<byte>, pos: nat, blockType: u32, total: u32, st: Meta)
    ensures blockType != IL_BLOCK_TYPE
              && (blockType in {MI_BLOCK_TYPE, PL_BLOCK_TYPE, FDL_BLOCK_TYPE} || total >= BLOCK_HEADER_SIZE + TRAILER_SIZE) ==>
              ReadBlockBodyAsWritten(file, pos, blockType, total, st) == ReadBlockBody(file, pos, blockType, total, st)
    ensures blockType == IL_BLOCK_TYPE ==>
              var c := ReadBlockBody(file, pos, blockType, total, st);
              && (c.Ok? ==> c.value.value.addrlist.Some?)
              && ReadBlockBodyAsWritten(file, pos, blockType, total, st)
                   == if c.Ok? then Ok(Parsed(c.value.value.(addrlist := Some(c.value.value.addrlist.value.(
                                       totlen := Wrap32(total - BLOCK_HEADER_SIZE - TRAILER_SIZE)))), c.value.next))
                      else Err(c.error)
  {
    if blockType == IL_BLOCK_TYPE {
      IlBlockAsWritten(file, pos, Wrap32(total - BLOCK_HEADER_SIZE - TRAILER_SIZE));
    }
  }

  /** So one turn of the loop as written is the model's turn on every block but
      those two. */
  lemma {:induction false} TurnAsWritten(file: seq<byte>, pos: nat, st: Meta, blockType: u32, total: u32)
    requires IsAt(file, pos, EncU32(blockType) + EncU32(total))
    requires blockType != IL_BLOCK_TYPE
    requires blockType in {MI_BLOCK_TYPE, PL_BLOCK_TYPE, FDL_BLOCK_TYPE, EV_BLOCK_TYPE} || total >= BLOCK_HEADER_SIZE + TRAILER_SIZE
    ensures MetadataTurnAsWritten(file, pos, st) == MetadataTurn(file, pos, st)
  {
    HeaderRead(file, pos, blockType, total);
    BodyAsWritten(file, pos + BLOCK_HEADER_SIZE, blockType, total, st);
  }

  /** An interface block the model's turn reads as a list is read as written as
      the same list with totlen equal to block_length. */
  lemma {:induction false} IlTurnAsWritten(file: seq<byte>, pos: nat, st: Meta, total: u32, st': Meta, next: nat)
    requires IsAt(file, pos, EncU32(IL_BLOCK_TYPE) + EncU32(total))
    requires MetadataTurn(file, pos, st) == Ok(Go(st', next))
    ensures st'.addrlist.Some?
    ensures MetadataTurnAsWritten(file, pos, st)
         == Ok(Go(st'.(addrlist := Some(st'.addrlist.value.(totlen := Wrap32(total - BLOCK_HEADER_SIZE - TRAILER_SIZE)))), next))
  {
    HeaderRead(file, pos, IL_BLOCK_TYPE, total);
    BodyAsWritten(file, pos + BLOCK_HEADER_SIZE, IL_BLOCK_TYPE, total, st);
  }

  /** The type and total length of a block header are what the header read finds. */
  lemma HeaderRead(file: seq<byte>, pos: nat, blockType: u32, total: u32)
    requires IsAt(file, pos, EncU32(blockType) + EncU32(total))
    ensures pos + BLOCK_HEADER_SIZE <= |file|
    ensures U32At(file[pos..pos + BLOCK_HEADER_SIZE], 0) == blockType
    ensures U32At(file[pos..pos + BLOCK_HEADER_SIZE], 4) == total
  {
    IsAtBound(file, pos, EncU32(blockType) + EncU32(total));
    IsAtSplit(file, pos, EncU32(blockType), EncU32(total));
    FieldOfRead(file, pos, BLOCK_HEADER_SIZE, 0, blockType);
    FieldOfRead(file, pos, BLOCK_HEADER_SIZE, 4, total);
  }

  /** scap_read_iflist as written keeps the padding in the list's totlen: reading
      an interface block whose entries are not a multiple of 4 bytes long gives a
      list that declares more bytes than its entries take. Dumped again, that list
      becomes a block whose header and trailer declare pad bytes more than the
      block has, so the trailer is not where the header says. */
  lemma {:induction false} IlDecodeAsWrittenKeepsPadding(al: AddrList, pad: nat)
    requires ValidAddrList(al) && 0 < pad < 4 && |IlPayload(al)| + pad < U32_MODULUS && Fits(al.totlen + pad)
    ensures IlDecodeAsWritten(IlPayload(al) + Zeros(pad), |IlPayload(al)| + pad)
         == Ok(al.(totlen := al.totlen + pad))
    ensures !ValidAddrList(al.(totlen := al.totlen + pad))
    ensures |IlBlock(al.(totlen := al.totlen + pad))| + pad == TotalLength(al.totlen + pad)
    ensures !SelfFramed(IlBlock(al.(totlen := al.totlen + pad)))
  {
    IlPayloadLength(al);
    RoundTrip.IlDecodeOfPayload(al, pad);
    var wide := al.(totlen := al.totlen + pad);
    assert wide == AddrList(al.v4, al.v6, |IlPayload(al)| + pad);
    assert wide.totlen != SumLen(wide.v4, If4Len) + SumLen(wide.v6, If6Len);
    var b := IlBlock(wide);
    var total := TotalLength(wide.totlen);
    TotalLengthIsPaddedPayload(wide.totlen);
    assert IlPayload(wide) == IlPayload(al);
    assert b == EncU32(IL_BLOCK_TYPE) + EncU32(total) + IlPayload(al) + Padding(Wrap32(wide.totlen)) + EncU32(total);
    assert |b| + pad == total;
    if SelfFramed(b) {
      assert b[4..8] == EncU32(total);
      EncU32Injective(|b|, total);
    }
  }

  /** The default branch of scap_read_init as written, on an unknown block whose
      total length is 0 and which follows four zero bytes: the seek lands 4 bytes
      before the header, the trailer read there equals the total length, and the
      turn ends where it began with the tables unchanged, so the next turn is this
      one again and the loop never ends. The model's turn rejects the block. */
  lemma {:induction false} SkipAsWrittenRereadsHeader(file: seq<byte>, pos: nat, st: Meta, blockType: u32)
    requires blockType !in {MI_BLOCK_TYPE, PL_BLOCK_TYPE, FDL_BLOCK_TYPE, IL_BLOCK_TYPE, EV_BLOCK_TYPE}
    requires pos >= TRAILER_SIZE && IsAt(file, pos - TRAILER_SIZE, EncU32(0))
    requires IsAt(file, pos, EncU32(blockType) + EncU32(0))
    ensures SkipAsWritten(pos + BLOCK_HEADER_SIZE, 0) == Ok(pos - TRAILER_SIZE)
    ensures MetadataTurnAsWritten(file, pos, st) == Ok(Go(st, pos))
    ensures MetadataTurn(file, pos, st) == Err(BlockLengthTooShort)
  {
    HeaderRead(file, pos, blockType, 0);
    UnknownBlockSkipped(file, pos, st, blockType, 0);
    ReadU32At(file, pos - TRAILER_SIZE, 0);
  }

  /** With the length checked first, every turn of the loop moves forward, past
      the block's header and trailer. */
  lemma SkipMovesForward(pos: nat, total: u32)
    ensures Skip(pos + BLOCK_HEADER_SIZE, total).Ok? <==> total >= BLOCK_HEADER_SIZE + TRAILER_SIZE
    ensures Skip(pos + BLOCK_HEADER_SIZE, total).Ok? ==> Skip(pos + BLOCK_HEADER_SIZE, total).value + TRAILER_SIZE == pos + total
  {
  }
}
