/** What scap_read_init and scap_next_offline make of a whole capture file as
    scap_setup_dump and scap_dump write it: the metadata blocks, turn by turn,
    rebuild the handle's tables, and the event block after them is delivered. */
module FileRoundTrip {
  import opened Bytes
  import opened Seqs
  import opened Block
  import opened Streams
  import opened Tables
  import opened SaveWrite
  import opened SaveRead
  import opened RoundTrip
  import opened ReadChecks

  // ---------------------------------------------------------------------------
  // One framed block

  /** The parts of a block as its writer frames it: header, body, padding below
      four bytes, trailer, with the total length in both length fields. */
  lemma FramedParts(blockType: u32, d: nat, body: seq<byte>) returns (total: u32, pad: nat)
    requires |body| == d && Fits(d)
    ensures pad < 4 && total == BLOCK_HEADER_SIZE + d + pad + TRAILER_SIZE && total % 4 == 0
    ensures Framed(blockType, d, body) == EncU32(blockType) + EncU32(total) + body + Zeros(pad) + EncU32(total)
  {
    TotalLengthIsPaddedPayload(d);
    FramedLayout(blockType, d, body);
    total, pad := TotalLength(d), PaddingLen(d);
  }

  /** A block laid out that way is in the file: its header at its start, its
      body and padding after the header, its trailer in its last four bytes. */
  lemma {:induction false} EnvelopeAt(file: seq<byte>, pos: nat, blockType: u32, total: u32, body: seq<byte>, pad: nat)
    requires IsAt(file, pos, EncU32(blockType) + EncU32(total) + body + Zeros(pad) + EncU32(total))
    requires total == BLOCK_HEADER_SIZE + |body| + pad + TRAILER_SIZE
    ensures pos + total <= |file| && IsAt(file, pos, EncU32(blockType) + EncU32(total))
    ensures IsAt(file, pos + BLOCK_HEADER_SIZE, body + Zeros(pad)) && IsAt(file, pos + BLOCK_HEADER_SIZE, body)
    ensures IsAt(file, pos + total - TRAILER_SIZE, EncU32(total))
  {
    var h, t := EncU32(blockType) + EncU32(total), EncU32(total);
    IsAtBound(file, pos, h + body + Zeros(pad) + t);
    IsAtSplit(file, pos, h + body + Zeros(pad), t);
    assert h + body + Zeros(pad) == h + (body + Zeros(pad));
    IsAtSplit(file, pos, h, body + Zeros(pad));
    IsAtSplit(file, pos + BLOCK_HEADER_SIZE, body, Zeros(pad));
  }

  /** The two fields of a block header read back. */
  lemma HeaderFields(blockType: u32, total: u32)
    ensures U32At(EncU32(blockType) + EncU32(total), 0) == blockType
    ensures U32At(EncU32(blockType) + EncU32(total), 4) == total
  {
    assert (EncU32(blockType) + EncU32(total))[0..4] == EncU32(blockType);
    assert (EncU32(blockType) + EncU32(total))[4..8] == EncU32(total);
    U32AtEnc(EncU32(blockType) + EncU32(total), 0, blockType);
    U32AtEnc(EncU32(blockType) + EncU32(total), 4, total);
  }

  /** The loop stops at an event block header, leaving the tables as they are. */
  lemma {:induction false} EventStops(file: seq<byte>, pos: nat, total: u32, st: Meta)
    requires IsAt(file, pos, EncU32(EV_BLOCK_TYPE) + EncU32(total))
    ensures ReadMetadata(file, pos, st) == Ok(Parsed(st, pos))
  {
    IsAtSlice(file, pos, EncU32(EV_BLOCK_TYPE) + EncU32(total));
    HeaderFields(EV_BLOCK_TYPE, total);
  }

  // ---------------------------------------------------------------------------
  // The bodies of the metadata blocks

  /** The switch of the metadata loop, one block type at a time. */
  lemma PlDispatch(file: seq<byte>, pos: nat, total: u32, bl: u32, st: Meta, procs': seq<ThreadInfo>, n: nat)
    requires bl == total - BLOCK_HEADER_SIZE - TRAILER_SIZE && ProcEntries(file, pos, bl, 0, st.procs) == Ok(Parsed(procs', n))
    ensures ReadBlockBody(file, pos, PL_BLOCK_TYPE, total, st) == Ok(Parsed(st.(procs := procs'), n))
  {
  }

  lemma FdlDispatch(file: seq<byte>, pos: nat, total: u32, bl: u32, st: Meta, procs': seq<ThreadInfo>, n: nat)
    requires bl == total - BLOCK_HEADER_SIZE - TRAILER_SIZE && ReadFdBlock(file, pos, bl, st.procs) == Ok(Parsed(procs', n))
    ensures ReadBlockBody(file, pos, FDL_BLOCK_TYPE, total, st) == Ok(Parsed(st.(procs := procs'), n))
  {
  }

  lemma IlDispatch(file: seq<byte>, pos: nat, total: u32, bl: u32, st: Meta, al: AddrList, n: nat)
    requires bl == total - BLOCK_HEADER_SIZE - TRAILER_SIZE && ReadIlBlock(file, pos, bl) == Ok(Parsed(al, n))
    ensures ReadBlockBody(file, pos, IL_BLOCK_TYPE, total, st) == Ok(Parsed(st.(addrlist := Some(al)), n))
  {
  }

  /** The machine-info body replaces the handle's machine info. */
  lemma {:induction false} MiBodyAt(file: seq<byte>, pos: nat, mi: MachineInfo, total: u32, st: Meta, n: nat)
    requires IsAt(file, pos, mi) && n == pos + MACHINE_INFO_SIZE
    ensures ReadBlockBody(file, pos, MI_BLOCK_TYPE, total, st) == Ok(Parsed(st.(mi := mi), n))
  {
    IsAtSlice(file, pos, mi);
  }

  /** The body of an interface-list block, padding included, as the writer lays
      it out, decodes to the written list. */
  lemma {:induction false} IlBlockAt(file: seq<byte>, pos: nat, al: AddrList, pad: nat, bl: u32, n: nat)
    requires ValidAddrList(al) && pad < 4 && bl == |IlPayload(al)| + pad && n == pos + bl
    requires IsAt(file, pos, IlPayload(al) + Zeros(pad))
    ensures ReadIlBlock(file, pos, bl) == Ok(Parsed(al, n))
  {
    IsAtSlice(file, pos, IlPayload(al) + Zeros(pad));
    IlDecodeOfPayload(al, pad);
    assert ReadBytes(file, pos, bl) == Ok(Parsed(IlPayload(al) + Zeros(pad), n));
  }

  // ---------------------------------------------------------------------------
  // Each metadata block as its writer emits it

  /** A machine-info block sets the handle's machine info. */
  lemma {:induction false} MiBlockTurn(file: seq<byte>, pos: nat, mi: MachineInfo, st: Meta)
    requires IsAt(file, pos, MiBlock(mi))
    ensures MetadataTurn(file, pos, st) == Ok(Go(st.(mi := mi), pos + |MiBlock(mi)|))
  {
    MiBlockIsFramed(mi);
    var total, pad := FramedParts(MI_BLOCK_TYPE, MACHINE_INFO_SIZE, mi);
    EnvelopeAt(file, pos, MI_BLOCK_TYPE, total, mi, pad);
    MiBodyAt(file, pos + BLOCK_HEADER_SIZE, mi, total, st, pos + total - TRAILER_SIZE);
    TrailerChecked(file, pos, st, MI_BLOCK_TYPE, total, st.(mi := mi), pos + total - TRAILER_SIZE, total, pos + |MiBlock(mi)|);
  }

  /** Payloads short enough that the block, its header and trailer included, stays
      below 2 GiB, where the readers' signed arithmetic is exact. */
  predicate Small(d: nat)
  {
    BLOCK_HEADER_SIZE + d + 4 + TRAILER_SIZE < 0x8000_0000
  }

  /** The body of a process-list block as its writer lays it out appends the
      written processes to the table and ends where the trailer starts. */
  lemma {:induction false} PlBodyAt(file: seq<byte>, pos: nat, procs: seq<ThreadInfo>, st: Meta, total: u32, pad: nat, bl: u32, n: nat)
    requires AllReadable(procs) && pad < 4 && bl == |PlPayload(procs)| + pad < 0x8000_0000
    requires total == BLOCK_HEADER_SIZE + bl + TRAILER_SIZE && n == pos + bl <= |file|
    requires IsAt(file, pos, PlPayload(procs))
    ensures ReadBlockBody(file, pos, PL_BLOCK_TYPE, total, st) == Ok(Parsed(st.(procs := st.procs + Reloads(procs)), n))
  {
    ProcEntriesOfPayload(file, pos, bl, 0, st.procs, procs, pad, n);
    PlDispatch(file, pos, total, bl, st, st.procs + Reloads(procs), n);
  }

  /** A process-list block whose header, payload and trailer are where its writer
      puts them appends the written processes to the table; the padding is read
      but not looked at. */
  lemma {:induction false} PlLayoutTurn(file: seq<byte>, pos: nat, procs: seq<ThreadInfo>, st: Meta, total: u32, pad: nat, bl: u32, next: nat)
    requires AllReadable(procs) && pad < 4 && bl == |PlPayload(procs)| + pad < 0x8000_0000
    requires total == BLOCK_HEADER_SIZE + bl + TRAILER_SIZE && next == pos + total <= |file|
    requires IsAt(file, pos, EncU32(PL_BLOCK_TYPE) + EncU32(total))
    requires IsAt(file, pos + BLOCK_HEADER_SIZE, PlPayload(procs))
    requires IsAt(file, pos + total - TRAILER_SIZE, EncU32(total))
    ensures MetadataTurn(file, pos, st) == Ok(Go(st.(procs := st.procs + Reloads(procs)), next))
  {
    PlBodyAt(file, pos + BLOCK_HEADER_SIZE, procs, st, total, pad, bl, pos + total - TRAILER_SIZE);
    TrailerChecked(file, pos, st, PL_BLOCK_TYPE, total, st.(procs := st.procs + Reloads(procs)), pos + total - TRAILER_SIZE, total, next);
  }

  /** The layout of the process-list block. */
  lemma PlBlockLayout(procs: seq<ThreadInfo>) returns (total: u32, pad: nat)
    requires Small(SumLen(procs, ProcLen))
    ensures pad < 4 && total == BLOCK_HEADER_SIZE + |PlPayload(procs)| + pad + TRAILER_SIZE < 0x8000_0000
    ensures PlBlock(procs) == EncU32(PL_BLOCK_TYPE) + EncU32(total) + PlPayload(procs) + Zeros(pad) + EncU32(total)
    ensures |PlBlock(procs)| == total
  {
    PlBlockSelfFramed(procs);
    total, pad := FramedParts(PL_BLOCK_TYPE, |PlPayload(procs)|, PlPayload(procs));
  }

  /** A process-list block appends the written processes to the table. */
  lemma {:induction false} PlBlockTurn(file: seq<byte>, pos: nat, procs: seq<ThreadInfo>, st: Meta)
    requires AllReadable(procs) && Small(SumLen(procs, ProcLen)) && IsAt(file, pos, PlBlock(procs))
    ensures MetadataTurn(file, pos, st) == Ok(Go(st.(procs := st.procs + Reloads(procs)), pos + |PlBlock(procs)|))
  {
    var total, pad := PlBlockLayout(procs);
    EnvelopeAt(file, pos, PL_BLOCK_TYPE, total, PlPayload(procs), pad);
    PlLayoutTurn(file, pos, procs, st, total, pad, total - BLOCK_HEADER_SIZE - TRAILER_SIZE, pos + |PlBlock(procs)|);
  }

  /** The body of an fd-list block as its writer lays it out, whose tid is process
      i of the table, appends the written records to that process's fd table. */
  lemma {:induction false} FdlBodyAt(file: seq<byte>, pos: nat, t: ThreadInfo, i: nat, st: Meta, total: u32, pad: nat, bl: u32, n: nat)
    requires FindTid(st.procs, t.tid) == Some(i) && pad < 4 && bl == 8 + |FdsPayload(t.fdlist)| + pad < 0x8000_0000
    requires total == BLOCK_HEADER_SIZE + bl + TRAILER_SIZE && n == pos + bl <= |file|
    requires IsAt(file, pos, EncU64(t.tid) + FdsPayload(t.fdlist))
    ensures ReadBlockBody(file, pos, FDL_BLOCK_TYPE, total, st)
         == Ok(Parsed(st.(procs := st.procs[i := st.procs[i].(fdlist := st.procs[i].fdlist + t.fdlist)]), n))
  {
    ReadFdBlockAt(file, pos, t, st.procs, i, bl, pad, n);
    FdlDispatch(file, pos, total, bl, st, st.procs[i := st.procs[i].(fdlist := st.procs[i].fdlist + t.fdlist)], n);
  }

  /** An fd-list block whose header, tid, records and trailer are where its writer
      puts them, and whose tid is process i of the table, appends the written
      records to that process's fd table. */
  lemma {:induction false} FdlLayoutTurn(file: seq<byte>, pos: nat, t: ThreadInfo, i: nat, st: Meta, total: u32, pad: nat, bl: u32, next: nat)
    requires FindTid(st.procs, t.tid) == Some(i) && pad < 4 && bl == 8 + |FdsPayload(t.fdlist)| + pad < 0x8000_0000
    requires total == BLOCK_HEADER_SIZE + bl + TRAILER_SIZE && next == pos + total <= |file|
    requires IsAt(file, pos, EncU32(FDL_BLOCK_TYPE) + EncU32(total))
    requires IsAt(file, pos + BLOCK_HEADER_SIZE, EncU64(t.tid) + FdsPayload(t.fdlist))
    requires IsAt(file, pos + total - TRAILER_SIZE, EncU32(total))
    ensures MetadataTurn(file, pos, st)
         == Ok(Go(st.(procs := st.procs[i := st.procs[i].(fdlist := st.procs[i].fdlist + t.fdlist)]), next))
  {
    FdlBodyAt(file, pos + BLOCK_HEADER_SIZE, t, i, st, total, pad, bl, pos + total - TRAILER_SIZE);
    TrailerChecked(file, pos, st, FDL_BLOCK_TYPE, total,
                   st.(procs := st.procs[i := st.procs[i].(fdlist := st.procs[i].fdlist + t.fdlist)]),
                   pos + total - TRAILER_SIZE, total, next);
  }

  /** The layout of an fd-list block. */
  lemma FdlBlockLayout(t: ThreadInfo) returns (total: u32, pad: nat)
    requires Small(8 + SumLen(t.fdlist, FdInfoLen))
    ensures pad < 4 && total == BLOCK_HEADER_SIZE + 8 + |FdsPayload(t.fdlist)| + pad + TRAILER_SIZE < 0x8000_0000
    ensures FdlBlock(t) == EncU32(FDL_BLOCK_TYPE) + EncU32(total) + (EncU64(t.tid) + FdsPayload(t.fdlist))
                           + Zeros(pad) + EncU32(total)
    ensures |FdlBlock(t)| == total
  {
    FdlBlockSelfFramed(t);
    var body := EncU64(t.tid) + FdsPayload(t.fdlist);
    total, pad := FramedParts(FDL_BLOCK_TYPE, |body|, body);
  }

  /** Where the parts of a written fd-list block lie in the file. */
  lemma FdlBlockParts(file: seq<byte>, pos: nat, t: ThreadInfo) returns (total: u32, pad: nat, bl: u32)
    requires Small(8 + SumLen(t.fdlist, FdInfoLen)) && IsAt(file, pos, FdlBlock(t))
    ensures pad < 4 && bl == 8 + |FdsPayload(t.fdlist)| + pad < 0x8000_0000
    ensures total == BLOCK_HEADER_SIZE + bl + TRAILER_SIZE && pos + total <= |file| && |FdlBlock(t)| == total
    ensures IsAt(file, pos, EncU32(FDL_BLOCK_TYPE) + EncU32(total))
    ensures IsAt(file, pos + BLOCK_HEADER_SIZE, EncU64(t.tid) + FdsPayload(t.fdlist))
    ensures IsAt(file, pos + total - TRAILER_SIZE, EncU32(total))
  {
    total, pad := FdlBlockLayout(t);
    EnvelopeAt(file, pos, FDL_BLOCK_TYPE, total, EncU64(t.tid) + FdsPayload(t.fdlist), pad);
    bl := total - BLOCK_HEADER_SIZE - TRAILER_SIZE;
  }

  /** An fd-list block whose tid is process i of the table appends the written
      records to that process's fd table. */
  lemma {:induction false} FdlBlockTurn(file: seq<byte>, pos: nat, t: ThreadInfo, i: nat, st: Meta)
    requires FindTid(st.procs, t.tid) == Some(i) && Small(8 + SumLen(t.fdlist, FdInfoLen))
    requires IsAt(file, pos, FdlBlock(t))
    ensures MetadataTurn(file, pos, st)
         == Ok(Go(st.(procs := st.procs[i := st.procs[i].(fdlist := st.procs[i].fdlist + t.fdlist)]),
                  pos + |FdlBlock(t)|))
  {
    var total, pad, bl := FdlBlockParts(file, pos, t);
    FdlLayoutTurn(file, pos, t, i, st, total, pad, bl, pos + total);
  }

  /** The body of an interface-list block as its writer lays it out sets the
      handle's list to the written one. */
  lemma {:induction false} IlBodyAt(file: seq<byte>, pos: nat, al: AddrList, st: Meta, total: u32, pad: nat, bl: u32, n: nat)
    requires ValidAddrList(al) && pad < 4 && bl == |IlPayload(al)| + pad
    requires total == BLOCK_HEADER_SIZE + bl + TRAILER_SIZE && n == pos + bl <= |file|
    requires IsAt(file, pos, IlPayload(al) + Zeros(pad))
    ensures ReadBlockBody(file, pos, IL_BLOCK_TYPE, total, st) == Ok(Parsed(st.(addrlist := Some(al)), n))
  {
    IlBlockAt(file, pos, al, pad, bl, n);
    IlDispatch(file, pos, total, bl, st, al, n);
  }

  /** An interface-list block whose header, entries, zero padding and trailer are
      where its writer puts them sets the handle's list to the written one. */
  lemma {:induction false} IlLayoutTurn(file: seq<byte>, pos: nat, al: AddrList, st: Meta, total: u32, pad: nat, bl: u32, next: nat)
    requires ValidAddrList(al) && pad < 4 && bl == |IlPayload(al)| + pad
    requires total == BLOCK_HEADER_SIZE + bl + TRAILER_SIZE && next == pos + total <= |file|
    requires IsAt(file, pos, EncU32(IL_BLOCK_TYPE) + EncU32(total))
    requires IsAt(file, pos + BLOCK_HEADER_SIZE, IlPayload(al) + Zeros(pad))
    requires IsAt(file, pos + total - TRAILER_SIZE, EncU32(total))
    ensures MetadataTurn(file, pos, st) == Ok(Go(st.(addrlist := Some(al)), next))
  {
    IlBodyAt(file, pos + BLOCK_HEADER_SIZE, al, st, total, pad, bl, pos + total - TRAILER_SIZE);
    TrailerChecked(file, pos, st, IL_BLOCK_TYPE, total, st.(addrlist := Some(al)), pos + total - TRAILER_SIZE, total, next);
  }

  /** The layout of the interface-list block. */
  lemma IlBlockLayout(al: AddrList) returns (total: u32, pad: nat)
    requires ValidAddrList(al) && Fits(al.totlen)
    ensures pad < 4 && total == BLOCK_HEADER_SIZE + |IlPayload(al)| + pad + TRAILER_SIZE
    ensures IlBlock(al) == EncU32(IL_BLOCK_TYPE) + EncU32(total) + IlPayload(al) + Zeros(pad) + EncU32(total)
    ensures |IlBlock(al)| == total
  {
    IlBlockSelfFramed(al);
    IlPayloadLength(al);
    total, pad := FramedParts(IL_BLOCK_TYPE, |IlPayload(al)|, IlPayload(al));
  }

  /** An interface-list block sets the handle's list to the written one. */
  lemma {:induction false} IlBlockTurn(file: seq<byte>, pos: nat, al: AddrList, st: Meta)
    requires ValidAddrList(al) && Fits(al.totlen) && IsAt(file, pos, IlBlock(al))
    ensures MetadataTurn(file, pos, st) == Ok(Go(st.(addrlist := Some(al)), pos + |IlBlock(al)|))
  {
    var total, pad := IlBlockLayout(al);
    EnvelopeAt(file, pos, IL_BLOCK_TYPE, total, IlPayload(al), pad);
    IlLayoutTurn(file, pos, al, st, total, pad, total - BLOCK_HEADER_SIZE - TRAILER_SIZE, pos + |IlBlock(al)|);
  }

  /** As written, the loop sets the list to the same entries with totlen rounded
      up to a multiple of 4, the block_length it read. */
  lemma {:induction false} IlBlockTurnAsWritten(file: seq<byte>, pos: nat, al: AddrList, st: Meta)
    requires ValidAddrList(al) && Fits(al.totlen) && IsAt(file, pos, IlBlock(al))
    ensures MetadataTurnAsWritten(file, pos, st)
         == Ok(Go(st.(addrlist := Some(al.(totlen := NormalizeBlockLen(al.totlen)))), pos + |IlBlock(al)|))
  {
    var total, pad := IlBlockLayout(al);
    IlBlockTurn(file, pos, al, st);
    IlBlockSpan(al);
    assert Wrap32(total - BLOCK_HEADER_SIZE - TRAILER_SIZE) == NormalizeBlockLen(al.totlen);
    EnvelopeAt(file, pos, IL_BLOCK_TYPE, total, IlPayload(al), pad);
    IlTurnAsWritten(file, pos, st, total, st.(addrlist := Some(al)), pos + |IlBlock(al)|);
  }

  /** Between its header and trailer a written IL block holds totlen rounded up
      to a multiple of 4. */
  lemma IlBlockSpan(al: AddrList)
    requires ValidAddrList(al) && Fits(al.totlen)
    ensures |IlBlock(al)| - BLOCK_HEADER_SIZE - TRAILER_SIZE == NormalizeBlockLen(al.totlen)
  {
    IlPayloadLength(al);
    FramedLayout(IL_BLOCK_TYPE, al.totlen, IlPayload(al));
    TotalLengthIsPaddedPayload(al.totlen);
  }

  // ---------------------------------------------------------------------------
  // The section header and the events

  /** The section header as scap_setup_dump writes it passes both checks of
      scap_read_init, and the metadata loop starts right after it. */
  lemma {:induction false} ShbReadBack(file: seq<byte>, pos: nat, st: Meta)
    requires IsAt(file, pos, ShbBlock())
    ensures ReadInitSpec(file, pos, st) == ReadMetadata(file, pos + |ShbBlock()|, st)
  {
    ShbPartsAt(file, pos);
    ReadInitChecks(file, pos, st, SHB_BLOCK_TYPE, SHB_MAGIC);
  }

  /** Where the block type and the magic of a written section header lie. */
  lemma ShbPartsAt(file: seq<byte>, pos: nat)
    requires IsAt(file, pos, ShbBlock())
    ensures pos + |ShbBlock()| <= |file| && |ShbBlock()| == 28
    ensures IsAt(file, pos, EncU32(SHB_BLOCK_TYPE)) && IsAt(file, pos + BLOCK_HEADER_SIZE, EncU32(SHB_MAGIC))
  {
    ShbBlockLayout();
    IsAtBound(file, pos, ShbBlock());
    var head := EncU32(SHB_BLOCK_TYPE) + EncU32(SHB_TOTAL_LENGTH);
    var sh := head + EncU32(SHB_MAGIC) + EncU16(CURRENT_MAJOR_VERSION) + EncU16(CURRENT_MINOR_VERSION)
              + EncU64(SECTION_LENGTH_UNKNOWN);
    IsAtSplit(file, pos, sh, EncU32(SHB_TOTAL_LENGTH));
    IsAtSplit(file, pos, head + EncU32(SHB_MAGIC) + EncU16(CURRENT_MAJOR_VERSION) + EncU16(CURRENT_MINOR_VERSION),
              EncU64(SECTION_LENGTH_UNKNOWN));
    IsAtSplit(file, pos, head + EncU32(SHB_MAGIC) + EncU16(CURRENT_MAJOR_VERSION), EncU16(CURRENT_MINOR_VERSION));
    IsAtSplit(file, pos, head + EncU32(SHB_MAGIC), EncU16(CURRENT_MAJOR_VERSION));
    IsAtSplit(file, pos, head, EncU32(SHB_MAGIC));
    IsAtSplit(file, pos, EncU32(SHB_BLOCK_TYPE), EncU32(SHB_TOTAL_LENGTH));
  }

  /** The header of an event block and what follows it, as the event writer lays
      them out. */
  lemma {:induction false} EvPartsAt(file: seq<byte>, pos: nat, cpuid: u16, ev: seq<byte>, total: u32, pad: nat)
    requires IsAt(file, pos, EncU32(EV_BLOCK_TYPE) + EncU32(total) + (EncU16(cpuid) + ev) + Zeros(pad) + EncU32(total))
    requires total == BLOCK_HEADER_SIZE + 2 + |ev| + pad + TRAILER_SIZE
    ensures pos + total <= |file| && IsAt(file, pos, EncU32(EV_BLOCK_TYPE) + EncU32(total))
    ensures IsAt(file, pos + BLOCK_HEADER_SIZE, EncU16(cpuid) + (ev + Zeros(pad) + EncU32(total)))
  {
    var h, t := EncU32(EV_BLOCK_TYPE) + EncU32(total), EncU32(total);
    var whole := h + (EncU16(cpuid) + ev) + Zeros(pad) + t;
    IsAtBound(file, pos, whole);
    assert whole == h + (EncU16(cpuid) + (ev + Zeros(pad) + t));
    IsAtSplit(file, pos, h, EncU16(cpuid) + (ev + Zeros(pad) + t));
  }

  /** scap_next_offline on an event block whose parts are in place. */
  lemma {:induction false} EventTurn(file: seq<byte>, pos: nat, cpuid: u16, rest: seq<byte>, total: u32)
    requires total == BLOCK_HEADER_SIZE + 2 + |rest| && total >= BLOCK_HEADER_SIZE + EVENT_HEADER_SIZE + TRAILER_SIZE
    requires pos + total <= |file| && IsAt(file, pos, EncU32(EV_BLOCK_TYPE) + EncU32(total))
    requires IsAt(file, pos + BLOCK_HEADER_SIZE, EncU16(cpuid) + rest)
    ensures NextEvent(file, pos) == Ok(Parsed(Event(cpuid, rest), pos + total))
  {
    NextEventChecks(file, pos, EV_BLOCK_TYPE, total);
    IsAtSplit(file, pos, EncU32(EV_BLOCK_TYPE), EncU32(total));
    FieldOfRead(file, pos, BLOCK_HEADER_SIZE, 4, total);
    var body := EncU16(cpuid) + rest;
    IsAtSlice(file, pos + BLOCK_HEADER_SIZE, body);
    assert file[pos + BLOCK_HEADER_SIZE..pos + total] == body;
    U16AtEnc(body, 0, cpuid);
    assert body[2..] == rest;
  }

  /** An event block as scap_dump writes it is delivered by scap_next_offline: the
      cpu id, then the event, followed by the padding and trailer the reader
      leaves unchecked; the next read starts after the block. */
  lemma EventReadBack(file: seq<byte>, pos: nat, cpuid: u16, ev: seq<byte>) returns (total: u32, pad: nat)
    requires |ev| >= EVENT_HEADER_SIZE && Fits(2 + |ev|) && IsAt(file, pos, EvBlock(cpuid, ev))
    ensures pad < 4 && total == |EvBlock(cpuid, ev)|
    ensures NextEvent(file, pos) == Ok(Parsed(Event(cpuid, ev + Zeros(pad) + EncU32(total)), pos + total))
  {
    total, pad := FramedParts(EV_BLOCK_TYPE, 2 + |ev|, EncU16(cpuid) + ev);
    FramedLayout(EV_BLOCK_TYPE, 2 + |ev|, EncU16(cpuid) + ev);
    EvPartsAt(file, pos, cpuid, ev, total, pad);
    EventTurn(file, pos, cpuid, ev + Zeros(pad) + EncU32(total), total);
  }
}
