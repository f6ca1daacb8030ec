/** The write path of scap_savefile.c: the bytes each writer emits, and the
    writers themselves over a Sink. A chain of fwrite calls joined by || is
    written as one Write of the concatenation: the chain stops at the first short
    write, and the sink keeps the same bytes either way (Streams.FitAppend). */
module SaveWrite {
  import opened Bytes
  import opened Seqs
  import opened Block
  import opened Streams
  import opened SinkFacts
  import opened Tables

  /** sizeof(block_header) + sizeof(section_header_block) + 4, not normalised. */
  const SHB_TOTAL_LENGTH: u32 := 8 + 16 + 4

  function ShbBlock(): seq<byte>
  {
    EncU32(SHB_BLOCK_TYPE) + EncU32(SHB_TOTAL_LENGTH)
    + EncU32(SHB_MAGIC) + EncU16(CURRENT_MAJOR_VERSION) + EncU16(CURRENT_MINOR_VERSION)
    + EncU64(SECTION_LENGTH_UNKNOWN)
    + EncU32(SHB_TOTAL_LENGTH)
  }

  /** scap_write_machine_info emits no padding of its own. */
  function MiBlock(mi: MachineInfo): seq<byte>
  {
    var total := NormalizeBlockLen(BLOCK_HEADER_SIZE + MACHINE_INFO_SIZE + TRAILER_SIZE);
    EncU32(MI_BLOCK_TYPE) + EncU32(total) + mi + EncU32(total)
  }

  /** The u32 totlen of scap_write_proc_fds: the tid plus every fd record. */
  function FdlDeclared(t: ThreadInfo): u32
  {
    Wrap32(8 + SumLen(t.fdlist, FdInfoLen))
  }

  function FdlBlock(t: ThreadInfo): seq<byte>
  {
    Framed(FDL_BLOCK_TYPE, FdlDeclared(t), EncU64(t.tid) + FdsPayload(t.fdlist))
  }

  function FdlBlocks(procs: seq<ThreadInfo>): seq<byte>
  {
    ConcatMap(procs, FdlBlock)
  }

  /** The u32 totlen of scap_write_proclist's first pass. */
  function PlDeclared(procs: seq<ThreadInfo>): u32
  {
    Wrap32(SumLen(procs, ProcLen))
  }

  function PlBlock(procs: seq<ThreadInfo>): seq<byte>
  {
    Framed(PL_BLOCK_TYPE, PlDeclared(procs), PlPayload(procs))
  }

  /** The interface block declares the list's own totlen. */
  function IlBlock(al: AddrList): seq<byte>
  {
    Framed(IL_BLOCK_TYPE, al.totlen, IlPayload(al))
  }

  /** One event block: cpuid, then the event->len bytes of the event. */
  function EvBlock(cpuid: u16, ev: seq<byte>): seq<byte>
  {
    Framed(EV_BLOCK_TYPE, 2 + |ev|, EncU16(cpuid) + ev)
  }

  /** Everything scap_setup_dump emits. Without an interface list it stops after
      the machine-info block. */
  function SetupImage(procs: seq<ThreadInfo>, addrlist: Option<AddrList>, mi: MachineInfo): seq<byte>
  {
    ShbBlock() + MiBlock(mi)
    + match addrlist
      case None => []
      case Some(al) => IlBlock(al) + PlBlock(procs) + FdlBlocks(procs)
  }

  // ---------------------------------------------------------------------------
  // Writers

  /** The records of one list, one fwrite each, stopping at the first short write. */
  method WriteRecords<T>(xs: seq<T>, enc: T -> seq<byte>, f: Sink) returns (ok: bool)
    requires f.Valid()
    modifies f
    ensures f.Valid()
    ensures f.data == Fit(old(f.data) + ConcatMap(xs, enc), f.capacity)
    ensures ok <==> |old(f.data)| + |ConcatMap(xs, enc)| <= f.capacity
  {
    ghost var base := f.data;
    var i := 0;
    while i < |xs|
      invariant 0 <= i <= |xs|
      invariant f.Valid()
      invariant f.data == base + ConcatMap(xs[..i], enc)
    {
      ok := f.Write(enc(xs[i]));
      RecordStep(base, xs, i, enc, f.capacity, f.data, ok);
      if !ok {
        return;
      }
      i := i + 1;
    }
    assert xs[..i] == xs;
    ok := true;
  }

  /** The first pass of scap_write_proc_fds: the tid plus scap_fd_info_len of every
      record, summed in u32. */
  method FdListLength(fds: seq<FdInfo>) returns (totlen: u32)
    ensures totlen == Wrap32(8 + SumLen(fds, FdInfoLen))
  {
    totlen := 8;
    var i := 0;
    while i < |fds|
      invariant 0 <= i <= |fds|
      invariant totlen == Wrap32(8 + SumLen(fds[..i], FdInfoLen))
    {
      SumLenStep(fds, i, FdInfoLen);
      Wrap32Add(8 + SumLen(fds[..i], FdInfoLen), FdInfoLen(fds[i]));
      totlen := Wrap32(totlen + FdInfoLen(fds[i]));
      i := i + 1;
    }
    assert fds[..i] == fds;
  }

  /** scap_write_proc_fds: one fd-list block for one thread. */
  method WriteProcFds(tinfo: ThreadInfo, f: Sink) returns (ok: bool)
    requires f.Valid()
    modifies f
    ensures f.Valid()
    ensures f.data == Fit(old(f.data) + FdlBlock(tinfo), f.capacity)
    ensures ok <==> |old(f.data)| + |FdlBlock(tinfo)| <= f.capacity
  {
    ghost var base := f.data;
    var fds := tinfo.fdlist;
    var totlen := FdListLength(fds);
    var total := NormalizeBlockLen(Wrap32(BLOCK_HEADER_SIZE + totlen + TRAILER_SIZE));
    var head := EncU32(FDL_BLOCK_TYPE) + EncU32(total) + EncU64(tinfo.tid);
    ghost var payload := FdsPayload(fds);
    FramedAsWritten(FDL_BLOCK_TYPE, totlen, EncU64(tinfo.tid) + payload, total);
    assert FdlBlock(tinfo) == head + payload + Padding(totlen) + EncU32(total);
    Regroup4(base, head, payload, Padding(totlen), EncU32(total));

    ok := f.Write(head);
    ChunkStep(base, head, payload + Padding(totlen) + EncU32(total), f.capacity, f.data, ok);
    if !ok {
      return;
    }
    ok := WriteRecords(fds, EncFd, f);
    ChunkStep(base + head, payload, Padding(totlen) + EncU32(total), f.capacity, f.data, ok);
    if !ok {
      return;
    }
    ok := f.Write(Padding(totlen));
    ChunkStep(base + head + payload, Padding(totlen), EncU32(total), f.capacity, f.data, ok);
    if !ok {
      return;
    }
    ok := f.Write(EncU32(total));
  }

  /** scap_write_fdlist: one fd-list block per thread, in table order. */
  method WriteFdList(h: Scap, f: Sink) returns (ok: bool)
    requires f.Valid()
    modifies f
    ensures f.Valid()
    ensures f.data == Fit(old(f.data) + FdlBlocks(h.proclist), f.capacity)
    ensures ok <==> |old(f.data)| + |FdlBlocks(h.proclist)| <= f.capacity
  {
    ghost var base := f.data;
    var procs := h.proclist;
    var i := 0;
    while i < |procs|
      invariant 0 <= i <= |procs|
      invariant f.Valid()
      invariant f.data == base + FdlBlocks(procs[..i])
    {
      ok := WriteProcFds(procs[i], f);
      RecordStep(base, procs, i, FdlBlock, f.capacity, f.data, ok);
      if !ok {
        return;
      }
      i := i + 1;
    }
    assert procs[..i] == procs;
    ok := true;
  }

  /** The first pass of scap_write_proclist: the entry lengths summed in u32. */
  method ProcListLength(procs: seq<ThreadInfo>) returns (totlen: u32)
    ensures totlen == PlDeclared(procs)
  {
    totlen := 0;
    var i := 0;
    while i < |procs|
      invariant 0 <= i <= |procs|
      invariant totlen == Wrap32(SumLen(procs[..i], ProcLen))
    {
      SumLenStep(procs, i, ProcLen);
      Wrap32Add(SumLen(procs[..i], ProcLen), ProcLen(procs[i]));
      totlen := Wrap32(totlen + ProcLen(procs[i]));
      i := i + 1;
    }
    assert procs[..i] == procs;
  }

  /** scap_write_proclist: one process-list block holding every thread. */
  method WriteProcList(h: Scap, f: Sink) returns (ok: bool)
    requires f.Valid()
    modifies f
    ensures f.Valid()
    ensures f.data == Fit(old(f.data) + PlBlock(h.proclist), f.capacity)
    ensures ok <==> |old(f.data)| + |PlBlock(h.proclist)| <= f.capacity
  {
    ghost var base := f.data;
    var procs := h.proclist;
    var totlen := ProcListLength(procs);
    var total := NormalizeBlockLen(Wrap32(BLOCK_HEADER_SIZE + totlen + TRAILER_SIZE));
    var head := EncU32(PL_BLOCK_TYPE) + EncU32(total);
    ghost var payload := PlPayload(procs);
    FramedAsWritten(PL_BLOCK_TYPE, totlen, payload, total);
    Regroup4(base, head, payload, Padding(totlen), EncU32(total));

    ok := f.Write(head);
    ChunkStep(base, head, payload + Padding(totlen) + EncU32(total), f.capacity, f.data, ok);
    if !ok {
      return;
    }
    ok := WriteRecords(procs, EncProc, f);
    ChunkStep(base + head, payload, Padding(totlen) + EncU32(total), f.capacity, f.data, ok);
    if !ok {
      return;
    }
    ok := f.Write(Padding(totlen));
    ChunkStep(base + head + payload, Padding(totlen), EncU32(total), f.capacity, f.data, ok);
    if !ok {
      return;
    }
    ok := f.Write(EncU32(total));
  }

  /** scap_write_machine_info */
  method WriteMachineInfo(h: Scap, f: Sink) returns (ok: bool)
    requires f.Valid()
    modifies f
    ensures f.Valid()
    ensures f.data == Fit(old(f.data) + MiBlock(h.machineInfo), f.capacity)
    ensures ok <==> |old(f.data)| + |MiBlock(h.machineInfo)| <= f.capacity
  {
    ok := f.Write(MiBlock(h.machineInfo));
  }

  /** scap_write_iflist: fails before writing anything when there is no list. */
  method WriteIfList(h: Scap, f: Sink) returns (ok: bool)
    requires f.Valid()
    modifies f
    ensures f.Valid()
    ensures h.addrlist.None? ==> !ok && f.data == old(f.data)
    ensures h.addrlist.Some? ==> f.data == Fit(old(f.data) + IlBlock(h.addrlist.value), f.capacity)
    ensures h.addrlist.Some? ==> (ok <==> |old(f.data)| + |IlBlock(h.addrlist.value)| <= f.capacity)
  {
    if h.addrlist.None? {
      return false;
    }
    var al := h.addrlist.value;
    ghost var base := f.data;
    var total := NormalizeBlockLen(Wrap32(BLOCK_HEADER_SIZE + al.totlen + TRAILER_SIZE));
    var head := EncU32(IL_BLOCK_TYPE) + EncU32(total);
    ghost var v4Bytes := ConcatMap(al.v4, EncIf4);
    ghost var v6Bytes := ConcatMap(al.v6, EncIf6);
    FramedAsWritten(IL_BLOCK_TYPE, al.totlen, v4Bytes + v6Bytes, total);
    assert IlBlock(al) == head + v4Bytes + v6Bytes + Padding(al.totlen) + EncU32(total);
    Regroup5(base, head, v4Bytes, v6Bytes, Padding(al.totlen), EncU32(total));

    ok := f.Write(head);
    ChunkStep(base, head, v4Bytes + v6Bytes + Padding(al.totlen) + EncU32(total), f.capacity, f.data, ok);
    if !ok {
      return;
    }

    ok := WriteRecords(al.v4, EncIf4, f);
    ChunkStep(base + head, v4Bytes, v6Bytes + Padding(al.totlen) + EncU32(total), f.capacity, f.data, ok);
    if !ok {
      return;
    }
    ok := WriteRecords(al.v6, EncIf6, f);
    ChunkStep(base + head + v4Bytes, v6Bytes, Padding(al.totlen) + EncU32(total), f.capacity, f.data, ok);
    if !ok {
      return;
    }
    ok := f.Write(Padding(al.totlen));
    ChunkStep(base + head + v4Bytes + v6Bytes, Padding(al.totlen), EncU32(total), f.capacity, f.data, ok);
    if !ok {
      return;
    }
    ok := f.Write(EncU32(total));
  }

  /** scap_setup_dump: section header, machine info, interfaces, processes, then
      one fd list per thread; the first failure ends the setup. */
  method SetupDump(h: Scap, f: Sink) returns (ok: bool)
    requires f.Valid()
    modifies f
    ensures f.Valid()
    ensures f.data == Fit(old(f.data) + SetupImage(h.proclist, h.addrlist, h.machineInfo), f.capacity)
    ensures ok <==> (h.addrlist.Some?
                     && |old(f.data)| + |SetupImage(h.proclist, h.addrlist, h.machineInfo)| <= f.capacity)
  {
    ghost var base := f.data;
    ghost var shb := ShbBlock();
    ghost var mi := MiBlock(h.machineInfo);
    ghost var rest: seq<byte> := if h.addrlist.None? then [] else IlBlock(h.addrlist.value) + PlBlock(h.proclist) + FdlBlocks(h.proclist);
    assert SetupImage(h.proclist, h.addrlist, h.machineInfo) == shb + mi + rest;
    Regroup3(base, shb, mi, rest);

    ok := f.Write(ShbBlock());
    ChunkStep(base, shb, mi + rest, f.capacity, f.data, ok);
    if !ok {
      return;
    }
    ok := WriteMachineInfo(h, f);
    ChunkStep(base + shb, mi, rest, f.capacity, f.data, ok);
    if !ok {
      return;
    }
    if h.addrlist.None? {
      ok := WriteIfList(h, f);
      return;
    }
    var al := h.addrlist.value;
    ghost var il := IlBlock(al);
    ghost var pl := PlBlock(h.proclist);
    ghost var fdl := FdlBlocks(h.proclist);
    ghost var front := base + shb + mi;
    Regroup3(front, il, pl, fdl);
    ok := WriteIfList(h, f);
    ChunkStep(front, il, pl + fdl, f.capacity, f.data, ok);
    if !ok {
      return;
    }
    ok := WriteProcList(h, f);
    ChunkStep(front + il, pl, fdl, f.capacity, f.data, ok);
    if !ok {
      return;
    }
    ok := WriteFdList(h, f);
  }

  /** The header and cpu id scap_dump writes before the event bytes. */
  function EvHeader(cpuid: u16, evLen: nat): seq<byte>
  {
    EncU32(EV_BLOCK_TYPE) + EncU32(TotalLength(2 + evLen)) + EncU16(cpuid)
  }

  /** scap_dump: one event block. The event bytes go out as one fwrite of a
      single item of event->len bytes, and fwrite of a zero-sized item reports
      zero items written, so an empty event fails after its header and cpu id. */
  method Dump(f: Sink, ev: seq<byte>, cpuid: u16) returns (ok: bool)
    requires f.Valid()
    modifies f
    ensures f.Valid()
    ensures |ev| == 0 ==> !ok && f.data == Fit(old(f.data) + EvHeader(cpuid, 0), f.capacity)
    ensures |ev| > 0 ==> f.data == Fit(old(f.data) + EvBlock(cpuid, ev), f.capacity)
    ensures |ev| > 0 ==> (ok <==> |old(f.data)| + |EvBlock(cpuid, ev)| <= f.capacity)
  {
    if |ev| == 0 {
      var _ := f.Write(EvHeader(cpuid, 0));
      ok := false;
    } else {
      ok := f.Write(EvBlock(cpuid, ev));
    }
  }

  /** What an empty event leaves behind is the first ten bytes of its block: a
      header that declares 16 bytes, and the cpu id, with no trailer. */
  lemma EmptyEventTruncated(cpuid: u16)
    ensures EvHeader(cpuid, 0) == EvBlock(cpuid, [])[..10]
    ensures TotalLength(2) == 16 && |EvBlock(cpuid, [])| == 16
    ensures |EvHeader(cpuid, 0)| == 10 && EvHeader(cpuid, 0)[4..8] == EncU32(16)
  {
    FramedLayout(EV_BLOCK_TYPE, 2, EncU16(cpuid));
  }

  // ---------------------------------------------------------------------------
  // Every block the writers emit is self-framed

  lemma ShbBlockLayout()
    ensures |ShbBlock()| == SHB_TOTAL_LENGTH
    ensures ShbBlock()[..4] == EncU32(SHB_BLOCK_TYPE)
    ensures ShbBlock()[4..8] == EncU32(|ShbBlock()|) && ShbBlock()[24..] == EncU32(|ShbBlock()|)
    ensures ShbBlock()[8..12] == EncU32(SHB_MAGIC)
  {
  }

  /** The machine-info block writes no padding, and needs none: its payload is a
      multiple of 4, so it is the framed block of its payload. */
  lemma MiBlockIsFramed(mi: MachineInfo)
    ensures MiBlock(mi) == Framed(MI_BLOCK_TYPE, MACHINE_INFO_SIZE, mi)
    ensures SelfFramed(MiBlock(mi))
  {
    assert PaddingLen(MACHINE_INFO_SIZE) == 0;
    FramedIsSelfFramed(MI_BLOCK_TYPE, MACHINE_INFO_SIZE, mi);
  }

  lemma FdlBlockSelfFramed(t: ThreadInfo)
    requires Fits(8 + SumLen(t.fdlist, FdInfoLen))
    ensures FdlDeclared(t) == 8 + |FdsPayload(t.fdlist)|
    ensures SelfFramed(FdlBlock(t))
  {
    FdsPayloadLength(t.fdlist);
    FramedIsSelfFramed(FDL_BLOCK_TYPE, FdlDeclared(t), EncU64(t.tid) + FdsPayload(t.fdlist));
  }

  lemma {:induction false} PlBlockSelfFramed(procs: seq<ThreadInfo>)
    requires Fits(SumLen(procs, ProcLen))
    ensures PlDeclared(procs) == |PlPayload(procs)|
    ensures SelfFramed(PlBlock(procs))
  {
    PlPayloadLength(procs);
    FramedIsSelfFramed(PL_BLOCK_TYPE, PlDeclared(procs), PlPayload(procs));
  }

  /** The interface block is framed by the list's own totlen, so it is self-framed
      exactly when that totlen is the length of the entries written. */
  lemma IlBlockSelfFramed(al: AddrList)
    requires ValidAddrList(al) && Fits(al.totlen)
    ensures SelfFramed(IlBlock(al))
  {
    IlPayloadLength(al);
    FramedIsSelfFramed(IL_BLOCK_TYPE, al.totlen, IlPayload(al));
  }

  lemma EvBlockSelfFramed(cpuid: u16, ev: seq<byte>)
    requires Fits(2 + |ev|)
    ensures SelfFramed(EvBlock(cpuid, ev))
  {
    FramedIsSelfFramed(EV_BLOCK_TYPE, 2 + |ev|, EncU16(cpuid) + ev);
  }
}
