/** The read path of scap_savefile.c. Each decoder is a spec function over the
    file contents and a position, returning the value and the position after it
    or the error the C code reports; each reader is a method over a Source and the
    capture handle, proved to do what its spec function describes. */
module SaveRead {
  import opened Bytes
  import opened Seqs
  import opened Block
  import opened Streams
  import opened Tables

  /** sizeof(struct ppm_evt_hdr): ts u64, tid u64, len u32, type u16. The header
      file that defines it is not part of this model. */
  const EVENT_HEADER_SIZE: nat := 22

  /** The fewest bytes one process-list entry occupies: every field, empty strings. */
  const PROC_ENTRY_MIN: nat := 8 + 8 + 8 + 2 + 2 + 2 + 2 + 8 + 4 + 4 + 4
  /** The longest process entry: four strings of SCAP_MAX_PATH_SIZE - 1 bytes. */
  const PROC_ENTRY_MAX: nat := PROC_ENTRY_MIN + 4 * (SCAP_MAX_PATH_SIZE - 1)
  /** The longest fd record: fd number, u16 length, and that many bytes. */
  const FD_RECORD_MAX: nat := 8 + 2 + 0xFFFF

  // ---------------------------------------------------------------------------
  // Process list block

  /** A u16 length, rejected when it is SCAP_MAX_PATH_SIZE or more, then that many bytes. */
  function ReadStr(file: seq<byte>, pos: nat): (r: Result<Parsed<PathBuf>>)
    ensures r.Ok? ==> |r.value.value| < SCAP_MAX_PATH_SIZE
    ensures r.Ok? ==> r.value.next == pos + 2 + |r.value.value| <= |file|
  {
    var len :- ReadU16(file, pos);
    if len.value >= SCAP_MAX_PATH_SIZE then Err(InvalidStringLength)
    else
      var s :- ReadBytes(file, len.next, len.value);
      Ok(Parsed(s.value, s.next))
  }

  /** One process-list entry, the fields in the order scap_read_proclist reads them:
      the three ids, the four strings, the fd limit and the three flag words.
      The entry has no fds yet; the fd-list blocks add them. */
  function ReadProcEntry(file: seq<byte>, pos: nat): (r: Result<Parsed<ThreadInfo>>)
    ensures r.Ok? ==> pos + PROC_ENTRY_MIN <= r.value.next <= |file|
    ensures r.Ok? ==> r.value.next <= pos + PROC_ENTRY_MAX
    ensures r.Ok? ==> r.value.value.fdlist == []
  {
    var ids :- ReadProcIds(file, pos);
    var names :- ReadProcStrings(file, ids.next);
    var limits :- ReadProcLimits(file, names.next);
    var (tid, pid, ppid) := ids.value;
    var (comm, exe, args, cwd) := names.value;
    var (fdlimit, flags, uid, gid) := limits.value;
    Ok(Parsed(ThreadInfo(tid, pid, ppid, comm, exe, args, cwd, fdlimit, flags, uid, gid, []),
              limits.next))
  }

  function ReadProcIds(file: seq<byte>, pos: nat): (r: Result<Parsed<(u64, u64, u64)>>)
    ensures r.Ok? ==> r.value.next == pos + 24 <= |file|
  {
    var tid :- ReadU64(file, pos);
    var pid :- ReadU64(file, tid.next);
    var ppid :- ReadU64(file, pid.next);
    Ok(Parsed((tid.value, pid.value, ppid.value), ppid.next))
  }

  function ReadProcStrings(file: seq<byte>, pos: nat): (r: Result<Parsed<(PathBuf, PathBuf, PathBuf, PathBuf)>>)
    ensures r.Ok? ==> pos + 8 <= r.value.next <= |file|
    ensures r.Ok? ==> r.value.next <= pos + 8 + 4 * (SCAP_MAX_PATH_SIZE - 1)
  {
    var comm :- ReadStr(file, pos);
    var exe :- ReadStr(file, comm.next);
    var args :- ReadStr(file, exe.next);
    var cwd :- ReadStr(file, args.next);
    Ok(Parsed((comm.value, exe.value, args.value, cwd.value), cwd.next))
  }

  function ReadProcLimits(file: seq<byte>, pos: nat): (r: Result<Parsed<(u64, u32, u32, u32)>>)
    ensures r.Ok? ==> r.value.next == pos + 20 <= |file|
  {
    var fdlimit :- ReadU64(file, pos);
    var flags :- ReadU32(file, fdlimit.next);
    var uid :- ReadU32(file, flags.next);
    var gid :- ReadU32(file, uid.next);
    Ok(Parsed((fdlimit.value, flags.value, uid.value, gid.value), gid.next))
  }

  /** The bytes of a proc- or fd-list block still unread, as the C code computes
      them: (int32_t)block_length - (int32_t)totreadsize. */
  function Left(blockLength: u32, tot: nat): int
  {
    AsInt32(blockLength) - AsInt32(Wrap32(tot))
  }

  /** A decoder of one record: the record at an offset and the offset after it. */
  type Decoder<T> = (seq<byte>, nat) -> Result<Parsed<T>>

  /** A decoder that always consumes at least one byte of the file. */
  ghost predicate Advances<T>(read: Decoder<T>)
  {
    forall file: seq<byte>, pos: nat :: read(file, pos).Ok? ==> pos < read(file, pos).value.next <= |file|
  }

  /** The entry loop shared by scap_read_proclist and scap_read_fdlist, from offset
      tot of the block: records while at least 4 bytes are left, appended to the
      table in order; then the padding, which must not be negative. */
  function Entries<T>(read: Decoder<T>, file: seq<byte>, pos: nat, blockLength: u32, tot: nat, acc: seq<T>)
    : (r: Result<Parsed<seq<T>>>)
    requires Advances(read)
    ensures r.Ok? ==> pos <= r.value.next
    ensures r.Ok? ==> acc <= r.value.value
    decreases |file| - pos
  {
    if Left(blockLength, tot) >= 4 then
      var e :- read(file, pos);
      Entries(read, file, e.next, blockLength, tot + (e.next - pos), acc + [e.value])
    else if Left(blockLength, tot) < 0 then Err(NegativePadding)
    else
      var pad :- ReadBytes(file, pos, Left(blockLength, tot));
      Ok(Parsed(acc, pad.next))
  }

  /** One turn of the entry loop: a record, appended to the table, then the rest
      of the loop from where the record ends. */
  lemma EntriesStep<T>(read: Decoder<T>, file: seq<byte>, pos: nat, blockLength: u32, tot: nat, acc: seq<T>,
                       e: T, next: nat)
    requires Advances(read) && Left(blockLength, tot) >= 4 && read(file, pos) == Ok(Parsed(e, next))
    ensures Entries(read, file, pos, blockLength, tot, acc)
         == Entries(read, file, next, blockLength, tot + (next - pos), acc + [e])
  {
  }

  /** A record that does not read back ends the loop with its error. */
  lemma {:induction false} EntriesFailed<T>(read: Decoder<T>, file: seq<byte>, pos: nat, blockLength: u32, tot: nat, acc: seq<T>,
                         e: ScapError)
    requires Advances(read) && Left(blockLength, tot) >= 4 && read(file, pos) == Err(e)
    ensures Entries(read, file, pos, blockLength, tot, acc) == Err(e)
  {
  }

  /** With records of bounded size, a block the loop accepts ends exactly
      block_length - totreadsize bytes on: the padding read aligns the cursor to
      the end of the block. A record that overshoots block_length leaves a
      negative remainder, which fails the block. */
  lemma {:induction false} EntriesAligned<T>(read: Decoder<T>, file: seq<byte>, pos: nat, blockLength: u32, tot: nat,
                                             acc: seq<T>, maxRec: nat)
    requires Advances(read)
    requires forall f: seq<byte>, p: nat :: read(f, p).Ok? ==> read(f, p).value.next <= p + maxRec
    requires tot <= blockLength + maxRec && blockLength + maxRec < 0x8000_0000
    ensures Entries(read, file, pos, blockLength, tot, acc).Ok? ==>
              tot <= blockLength && Entries(read, file, pos, blockLength, tot, acc).value.next == pos + (blockLength - tot)
    decreases |file| - pos
  {
    assert Wrap32(tot) == tot;
    assert Left(blockLength, tot) == blockLength - tot;
    if blockLength - tot >= 4 {
      match read(file, pos)
      case Err(_) =>
      case Ok(e) =>
        EntriesAligned(read, file, e.next, blockLength, tot + (e.next - pos), acc + [e.value], maxRec);
    }
  }

  /** The end of either entry loop, with fewer than 4 bytes left: the padding is
      read from the source, or a negative remainder fails the block. */
  method ReadEntriesPadding<T>(src: Source, read: Decoder<T>, blockLength: u32, tot: nat, acc: seq<T>)
    returns (r: Result<()>)
    requires Advances(read) && Left(blockLength, tot) < 4
    modifies src
    ensures Entries(read, src.file, old(src.pos), blockLength, tot, acc)
         == if r.Ok? then Ok(Parsed(acc, src.pos)) else Err(r.error)
  {
    if Left(blockLength, tot) < 0 {
      return Err(NegativePadding);
    }
    var pad := src.ReadExact(Left(blockLength, tot));
    if pad.Err? {
      return Err(pad.error);
    }
    return Ok(());
  }

  lemma ProcEntryAdvances()
    ensures Advances(ReadProcEntry)
  {
  }

  /** The entry loop of scap_read_proclist. */
  function ProcEntries(file: seq<byte>, pos: nat, blockLength: u32, tot: nat, acc: seq<ThreadInfo>)
    : Result<Parsed<seq<ThreadInfo>>>
  {
    ProcEntryAdvances();
    Entries(ReadProcEntry, file, pos, blockLength, tot, acc)
  }

  /** A process list block that reads back ends exactly block_length bytes on. */
  lemma ProcEntriesAligned(file: seq<byte>, pos: nat, blockLength: u32, acc: seq<ThreadInfo>)
    requires blockLength + PROC_ENTRY_MAX < 0x8000_0000
    ensures ProcEntries(file, pos, blockLength, 0, acc).Ok? ==> ProcEntries(file, pos, blockLength, 0, acc).value.next == pos + blockLength
  {
    ProcEntryAdvances();
    EntriesAligned(ReadProcEntry, file, pos, blockLength, 0, acc, PROC_ENTRY_MAX);
  }

  // ---------------------------------------------------------------------------
  // Fd list block

  /** The fd-record codec's on-disk form, read back: fd number, length, record. */
  function ReadFdRecord(file: seq<byte>, pos: nat): (r: Result<Parsed<FdInfo>>)
    ensures r.Ok? ==> r.value.next == pos + FdInfoLen(r.value.value) <= |file|
  {
    var fd :- ReadU64(file, pos);
    var len :- ReadU16(file, fd.next);
    var body :- ReadBytes(file, len.next, len.value);
    Ok(Parsed(FdInfo(fd.value, body.value), body.next))
  }

  lemma FdRecordAdvances()
    ensures Advances(ReadFdRecord)
  {
  }

  /** The record loop of scap_read_fdlist. */
  function FdEntries(file: seq<byte>, pos: nat, blockLength: u32, tot: nat, acc: seq<FdInfo>)
    : Result<Parsed<seq<FdInfo>>>
  {
    FdRecordAdvances();
    Entries(ReadFdRecord, file, pos, blockLength, tot, acc)
  }

  /** scap_read_fdlist: the owning tid, which must be in the process table, then the
      records, appended to that process's fd table. */
  function ReadFdBlock(file: seq<byte>, pos: nat, blockLength: u32, procs: seq<ThreadInfo>)
    : (r: Result<Parsed<seq<ThreadInfo>>>)
    ensures r.Ok? ==> pos <= r.value.next
    ensures r.Ok? ==> |r.value.value| == |procs|
  {
    var tid :- ReadU64(file, pos);
    match FindTid(procs, tid.value)
    case None => Err(MissingTid)
    case Some(i) =>
      var fds :- FdEntries(file, tid.next, blockLength, 8, procs[i].fdlist);
      Ok(Parsed(procs[i := procs[i].(fdlist := fds.value)], fds.next))
  }

  /** An fd list block that reads back ends exactly block_length bytes on: the tid
      and the records and the padding fill it. */
  lemma FdBlockAligned(file: seq<byte>, pos: nat, blockLength: u32, procs: seq<ThreadInfo>)
    requires blockLength + FD_RECORD_MAX < 0x8000_0000
    ensures ReadFdBlock(file, pos, blockLength, procs).Ok? ==>
              8 <= blockLength && ReadFdBlock(file, pos, blockLength, procs).value.next == pos + blockLength
  {
    FdRecordAdvances();
    var tid := ReadU64(file, pos);
    if tid.Ok? && FindTid(procs, tid.value.value).Some? {
      var i := FindTid(procs, tid.value.value).value;
      EntriesAligned(ReadFdRecord, file, tid.value.next, blockLength, 8, procs[i].fdlist, FD_RECORD_MAX);
    }
  }

  // ---------------------------------------------------------------------------
  // Interface list block, decoded from the block_length bytes read in one go

  function IfTypeAt(buf: seq<byte>, at: nat): u16
    requires at + 4 <= |buf|
  {
    U16At(buf, at)
  }

  function IfNameLenAt(buf: seq<byte>, at: nat): u16
    requires at + 4 <= |buf|
  {
    U16At(buf, at + 2)
  }

  /** memcpy of an IPv4 entry of entrysize bytes, the name terminated after its length. */
  function DecIf4(buf: seq<byte>, at: nat): IfInfo4
    requires at + 4 <= |buf|
    requires IfNameLenAt(buf, at) < SCAP_MAX_PATH_SIZE
    requires at + IPV4_ENTRY_FIXED + IfNameLenAt(buf, at) <= |buf|
  {
    IfInfo4(IfTypeAt(buf, at), U32At(buf, at + 4), U32At(buf, at + 8), U32At(buf, at + 12),
            buf[at + IPV4_ENTRY_FIXED..at + IPV4_ENTRY_FIXED + IfNameLenAt(buf, at)])
  }

  function DecIf6(buf: seq<byte>, at: nat): IfInfo6
    requires at + 4 <= |buf|
    requires IfNameLenAt(buf, at) < SCAP_MAX_PATH_SIZE
    requires at + IPV6_ENTRY_FIXED + IfNameLenAt(buf, at) <= |buf|
  {
    IfInfo6(IfTypeAt(buf, at), buf[at + 4..at + 20], buf[at + 20..at + 36], buf[at + 36..at + 52],
            buf[at + IPV6_ENTRY_FIXED..at + IPV6_ENTRY_FIXED + IfNameLenAt(buf, at)])
  }

  /** The first pass of scap_read_iflist from offset tot: it counts the entries of
      each family and checks neither the name lengths nor anything past the count.
      toread is block_length - totreadsize, never negative because no entry is
      accepted that runs past the buffer. */
  function IfCount(buf: seq<byte>, tot: nat, n4: nat, n6: nat): (r: Result<(nat, nat)>)
    requires tot <= |buf|
    ensures r.Ok? ==> n4 <= r.value.0 && n6 <= r.value.1
    decreases |buf| - tot
  {
    if |buf| - tot < 4 then Ok((n4, n6))
    else if IfTypeAt(buf, tot) == SCAP_FD_IPV4_SOCK then
      if |buf| - tot < IPV4_ENTRY_FIXED + IfNameLenAt(buf, tot) then Err(CorruptInterfaceList)
      else IfCount(buf, tot + IPV4_ENTRY_FIXED + IfNameLenAt(buf, tot), n4 + 1, n6)
    else if IfTypeAt(buf, tot) == SCAP_FD_IPV6_SOCK then
      if |buf| - tot < IPV6_ENTRY_FIXED + IfNameLenAt(buf, tot) then Err(CorruptInterfaceList)
      else IfCount(buf, tot + IPV6_ENTRY_FIXED + IfNameLenAt(buf, tot), n4, n6 + 1)
    else Err(UnknownInterfaceType)
  }

  /** The second pass: the same walk, rejecting over-long names first, decoding each
      entry into its family's array. Returns both lists and the bytes the entries took. */
  function IfFill(buf: seq<byte>, tot: nat, v4: seq<IfInfo4>, v6: seq<IfInfo6>)
    : (r: Result<(seq<IfInfo4>, seq<IfInfo6>, nat)>)
    requires tot <= |buf|
    ensures r.Ok? ==> tot <= r.value.2 <= |buf| && |buf| - r.value.2 < 4
    decreases |buf| - tot
  {
    if |buf| - tot < 4 then Ok((v4, v6, tot))
    else if IfNameLenAt(buf, tot) >= SCAP_MAX_PATH_SIZE then Err(CorruptInterfaceList)
    else if IfTypeAt(buf, tot) == SCAP_FD_IPV4_SOCK then
      if |buf| - tot < IPV4_ENTRY_FIXED + IfNameLenAt(buf, tot) then Err(CorruptInterfaceList)
      else IfFill(buf, tot + IPV4_ENTRY_FIXED + IfNameLenAt(buf, tot), v4 + [DecIf4(buf, tot)], v6)
    else if IfTypeAt(buf, tot) == SCAP_FD_IPV6_SOCK then
      if |buf| - tot < IPV6_ENTRY_FIXED + IfNameLenAt(buf, tot) then Err(CorruptInterfaceList)
      else IfFill(buf, tot + IPV6_ENTRY_FIXED + IfNameLenAt(buf, tot), v4, v6 + [DecIf6(buf, tot)])
    else Err(UnknownInterfaceType)
  }

  /** scap_read_iflist as written: the list's totlen is set to block_length, which
      includes the padding the writer added after the entries. */
  function IlDecodeAsWritten(buf: seq<byte>, blockLength: u32): Result<AddrList>
    requires |buf| == blockLength
  {
    var counts :- IfCount(buf, 0, 0, 0);
    var lists :- IfFill(buf, 0, [], []);
    Ok(AddrList(lists.0, lists.1, blockLength))
  }

  /** scap_read_iflist with totlen set to the bytes the entries took, which is what
      the writer declared for them. */
  function IlDecode(buf: seq<byte>): (r: Result<AddrList>)
    requires |buf| < U32_MODULUS
    ensures r.Ok? ==> r.value.totlen <= |buf| < r.value.totlen + 4
  {
    var counts :- IfCount(buf, 0, 0, 0);
    var lists :- IfFill(buf, 0, [], []);
    Ok(AddrList(lists.0, lists.1, lists.2))
  }

  function ReadIlBlock(file: seq<byte>, pos: nat, blockLength: u32): (r: Result<Parsed<AddrList>>)
    ensures r.Ok? ==> r.value.next == pos + blockLength
  {
    var buf :- ReadBytes(file, pos, blockLength);
    var al :- IlDecode(buf.value);
    Ok(Parsed(al, buf.next))
  }

  // ---------------------------------------------------------------------------
  // The metadata blocks and the section header

  /** The tables scap_read_init fills. */
  datatype Meta = Meta(procs: seq<ThreadInfo>, addrlist: Option<AddrList>, mi: MachineInfo)

  /** The body of one metadata block, by type, as the switch in scap_read_init reads
      it. block_length is block_total_length - 12 in u32. An unknown block is skipped
      by seeking; one whose total length is below 12 is rejected (see SkipAsWritten). */
  function ReadBlockBody(file: seq<byte>, pos: nat, blockType: u32, total: u32, st: Meta)
    : (r: Result<Parsed<Meta>>)
    ensures r.Ok? ==> pos <= r.value.next
  {
    var blockLength := Wrap32(total - BLOCK_HEADER_SIZE - TRAILER_SIZE);
    if blockType == MI_BLOCK_TYPE then
      var mi :- ReadBytes(file, pos, MACHINE_INFO_SIZE);
      Ok(Parsed(st.(mi := mi.value), mi.next))
    else if blockType == PL_BLOCK_TYPE then
      var p :- ProcEntries(file, pos, blockLength, 0, st.procs);
      Ok(Parsed(st.(procs := p.value), p.next))
    else if blockType == FDL_BLOCK_TYPE then
      var p :- ReadFdBlock(file, pos, blockLength, st.procs);
      Ok(Parsed(st.(procs := p.value), p.next))
    else if blockType == IL_BLOCK_TYPE then
      var p :- ReadIlBlock(file, pos, blockLength);
      Ok(Parsed(st.(addrlist := Some(p.value)), p.next))
    else
      var n :- Skip(pos, total);
      Ok(Parsed(st, n))
  }

  /** The default branch as written: fseek by block_total_length - 12, computed in
      size_t and passed as a long, so a total below 12 seeks backwards. */
  function SkipAsWritten(pos: nat, total: u32): Result<nat>
  {
    if pos + total - 12 >= 0 then Ok(pos + total - 12) else Err(SeekError)
  }

  /** The default branch with the length checked first. */
  function Skip(pos: nat, total: u32): (r: Result<nat>)
    ensures r.Ok? ==> r.value >= pos
  {
    if total < BLOCK_HEADER_SIZE + TRAILER_SIZE then Err(BlockLengthTooShort)
    else SkipAsWritten(pos, total)
  }

  /** The interface arm as written: the block read whole and decoded with totlen
      set to block_length. */
  function ReadIlBlockAsWritten(file: seq<byte>, pos: nat, blockLength: u32): Result<Parsed<AddrList>>
  {
    var buf :- ReadBytes(file, pos, blockLength);
    var al :- IlDecodeAsWritten(buf.value, blockLength);
    Ok(Parsed(al, buf.next))
  }

  /** The switch of scap_read_init exactly as written: the interface arm keeps
      block_length as totlen, and the default arm seeks by block_total_length - 12
      whatever the total is. The other arms are those of ReadBlockBody. */
  function ReadBlockBodyAsWritten(file: seq<byte>, pos: nat, blockType: u32, total: u32, st: Meta)
    : Result<Parsed<Meta>>
  {
    if blockType == IL_BLOCK_TYPE then
      var p :- ReadIlBlockAsWritten(file, pos, Wrap32(total - BLOCK_HEADER_SIZE - TRAILER_SIZE));
      Ok(Parsed(st.(addrlist := Some(p.value)), p.next))
    else if blockType == MI_BLOCK_TYPE || blockType == PL_BLOCK_TYPE || blockType == FDL_BLOCK_TYPE then
      ReadBlockBody(file, pos, blockType, total, st)
    else
      var n :- SkipAsWritten(pos, total);
      Ok(Parsed(st, n))
  }

  /** What one turn of the metadata loop finds: the event block that ends the
      loop, or the tables after a metadata block and the offset after its trailer. */
  datatype Turn = Stop | Go(st: Meta, next: nat)

  /** One turn of the metadata loop of scap_read_init at a block header: an event
      block ends the loop with the position back on its header; any other block is
      read by type and its trailer must repeat its total length. */
  function MetadataTurn(file: seq<byte>, pos: nat, st: Meta): (r: Result<Turn>)
    ensures r.Ok? && r.value.Go? ==> pos < r.value.next <= |file|
  {
    var hdr :- ReadBytes(file, pos, BLOCK_HEADER_SIZE);
    var blockType := U32At(hdr.value, 0);
    var total := U32At(hdr.value, 4);
    if blockType == EV_BLOCK_TYPE then Ok(Stop)
    else
      var body :- ReadBlockBody(file, hdr.next, blockType, total, st);
      var trailer :- ReadU32(file, body.next);
      if trailer.value != total then Err(WrongTrailer)
      else Ok(Go(body.value, trailer.next))
  }

  /** One turn of the metadata loop exactly as written, with the switch of
      ReadBlockBodyAsWritten. A turn that goes on need not move forward: one that
      ends where it began, with the tables unchanged, is followed by the same turn
      again, for ever. */
  function MetadataTurnAsWritten(file: seq<byte>, pos: nat, st: Meta): Result<Turn>
  {
    var hdr :- ReadBytes(file, pos, BLOCK_HEADER_SIZE);
    var blockType := U32At(hdr.value, 0);
    var total := U32At(hdr.value, 4);
    if blockType == EV_BLOCK_TYPE then Ok(Stop)
    else
      var body :- ReadBlockBodyAsWritten(file, hdr.next, blockType, total, st);
      var trailer :- ReadU32(file, body.next);
      if trailer.value != total then Err(WrongTrailer)
      else Ok(Go(body.value, trailer.next))
  }

  /** The metadata loop of scap_read_init from a block header at pos, turn by turn
      until the first event block. */
  function ReadMetadata(file: seq<byte>, pos: nat, st: Meta): (r: Result<Parsed<Meta>>)
    decreases |file| - pos
  {
    var turn :- MetadataTurn(file, pos, st);
    match turn
    case Stop => Ok(Parsed(st, pos))
    case Go(st', next) => ReadMetadata(file, next, st')
  }

  /** scap_read_init: the section header (block header, section header, trailer,
      each read whole), its type and byte-order magic checked, then the metadata.
      Neither the section header's lengths nor its version are checked. */
  function ReadInitSpec(file: seq<byte>, pos: nat, st: Meta): Result<Parsed<Meta>>
  {
    var bh :- ReadBytes(file, pos, BLOCK_HEADER_SIZE);
    var sh :- ReadBytes(file, bh.next, SECTION_HEADER_SIZE);
    var bt :- ReadBytes(file, sh.next, TRAILER_SIZE);
    if U32At(bh.value, 0) != SHB_BLOCK_TYPE then Err(InvalidBlockType)
    else if U32At(sh.value, 0) != SHB_MAGIC then Err(InvalidMagic)
    else ReadMetadata(file, bt.next, st)
  }

  // ---------------------------------------------------------------------------
  // Events

  datatype Next = Event(cpuid: u16, data: seq<byte>) | EndOfFile

  /** scap_next_offline: no bytes at all is the end of the file; a partial header,
      another block type or a block too short for an event header is an error.
      The block_total_length - 8 bytes after the header are read; the first two are
      the cpu id and the rest starts with the event. Padding and trailer are
      delivered with the event and not checked. */
  function NextEvent(file: seq<byte>, pos: nat): (r: Result<Parsed<Next>>)
    ensures r.Ok? && r.value.value.EndOfFile? <==> pos >= |file|
    ensures r.Ok? && r.value.value.Event? ==> pos + BLOCK_HEADER_SIZE + EVENT_HEADER_SIZE + TRAILER_SIZE <= r.value.next <= |file|
  {
    var got := Window(file, pos, BLOCK_HEADER_SIZE);
    if |got| == 0 then Ok(Parsed(EndOfFile, pos))
    else if |got| < BLOCK_HEADER_SIZE then Err(ReadError)
    else if U32At(got, 0) != EV_BLOCK_TYPE then Err(UnexpectedBlockType)
    else if U32At(got, 4) < BLOCK_HEADER_SIZE + EVENT_HEADER_SIZE + TRAILER_SIZE then Err(BlockTooShort)
    else
      var body :- ReadBytes(file, pos + BLOCK_HEADER_SIZE, U32At(got, 4) - BLOCK_HEADER_SIZE);
      Ok(Parsed(Event(U16At(body.value, 0), body.value[2..]), body.next))
  }

  // ---------------------------------------------------------------------------
  // Readers

  method ReadStrFrom(src: Source) returns (r: Result<PathBuf>)
    modifies src
    ensures Agrees(r, ReadStr(src.file, old(src.pos)), src.pos)
  {
    var len :- src.GetU16();
    if len >= SCAP_MAX_PATH_SIZE {
      return Err(InvalidStringLength);
    }
    var s :- src.ReadExact(len);
    var name: PathBuf := s;
    return Ok(name);
  }

  /** The body of scap_read_proclist's loop: one entry into a fresh threadinfo. */
  method ReadProcEntryFrom(src: Source) returns (r: Result<ThreadInfo>)
    modifies src
    ensures Agrees(r, ReadProcEntry(src.file, old(src.pos)), src.pos)
  {
    var tid :- src.GetU64();
    var pid :- src.GetU64();
    var ppid :- src.GetU64();
    var comm :- ReadStrFrom(src);
    var exe :- ReadStrFrom(src);
    var args :- ReadStrFrom(src);
    var cwd :- ReadStrFrom(src);
    var fdlimit :- src.GetU64();
    var flags :- src.GetU32();
    var uid :- src.GetU32();
    var gid :- src.GetU32();
    return Ok(ThreadInfo(tid, pid, ppid, comm, exe, args, cwd, fdlimit, flags, uid, gid, []));
  }

  /** ProcEntries after one entry that reads back. */
  lemma ProcEntryStep(file: seq<byte>, pos: nat, blockLength: u32, tot: nat, acc: seq<ThreadInfo>,
                      e: ThreadInfo, next: nat)
    requires Left(blockLength, tot) >= 4 && ReadProcEntry(file, pos) == Ok(Parsed(e, next))
    ensures ProcEntries(file, pos, blockLength, tot, acc)
         == ProcEntries(file, next, blockLength, tot + (next - pos), acc + [e])
  {
    ProcEntryAdvances();
    EntriesStep(ReadProcEntry, file, pos, blockLength, tot, acc, e, next);
  }

  /** ProcEntries after an entry that does not read back. */
  lemma ProcEntryFailed(file: seq<byte>, pos: nat, blockLength: u32, tot: nat, acc: seq<ThreadInfo>, e: ScapError)
    requires Left(blockLength, tot) >= 4 && ReadProcEntry(file, pos) == Err(e)
    ensures ProcEntries(file, pos, blockLength, tot, acc) == Err(e)
  {
    ProcEntryAdvances();
    EntriesFailed(ReadProcEntry, file, pos, blockLength, tot, acc, e);
  }

  /** The body of scap_read_proclist's loop with at least 4 bytes left: one entry
      read and appended to the process table. */
  method ReadProcStep(h: Scap, src: Source, blockLength: u32, tot: nat) returns (r: Result<()>, tot': nat)
    requires Left(blockLength, tot) >= 4
    modifies h, src
    ensures r.Ok? ==> old(src.pos) < src.pos <= |src.file|
    ensures ProcEntries(src.file, old(src.pos), blockLength, tot, old(h.proclist))
      == if r.Ok? then ProcEntries(src.file, src.pos, blockLength, tot', h.proclist) else Err(r.error)
    ensures h.addrlist == old(h.addrlist) && h.machineInfo == old(h.machineInfo)
  {
    tot' := tot;
    var before, acc := src.pos, h.proclist;
    var entry := ReadProcEntryFrom(src);
    if entry.Err? {
      ProcEntryFailed(src.file, before, blockLength, tot, acc, entry.error);
      return Err(entry.error), tot';
    }
    var e, after := entry.value, src.pos;
    ProcEntryStep(src.file, before, blockLength, tot, acc, e, after);
    h.proclist := acc + [e];
    return Ok(()), tot + (after - before);
  }

  /** One turn of scap_read_proclist's loop, from offset tot of the block: an entry
      appended to the process table while at least 4 bytes are left (done is false),
      else the padding (done is true). */
  method ReadProcTurn(h: Scap, src: Source, blockLength: u32, tot: nat) returns (r: Result<bool>, tot': nat)
    modifies h, src
    ensures r == Ok(false) ==> old(src.pos) < src.pos <= |src.file|
    ensures ProcEntries(src.file, old(src.pos), blockLength, tot, old(h.proclist))
      == match r
         case Ok(done) =>
           if done then Ok(Parsed(h.proclist, src.pos))
           else ProcEntries(src.file, src.pos, blockLength, tot', h.proclist)
         case Err(e) => Err(e)
    ensures h.addrlist == old(h.addrlist) && h.machineInfo == old(h.machineInfo)
  {
    ProcEntryAdvances();
    tot' := tot;
    if Left(blockLength, tot) >= 4 {
      var step;
      step, tot' := ReadProcStep(h, src, blockLength, tot);
      if step.Err? {
        return Err(step.error), tot';
      }
      return Ok(false), tot';
    }
    var pad := ReadEntriesPadding(src, ReadProcEntry, blockLength, tot, h.proclist);
    if pad.Err? {
      return Err(pad.error), tot';
    }
    return Ok(true), tot';
  }

  method ReadProcList(h: Scap, src: Source, blockLength: u32) returns (r: Result<()>)
    modifies h, src
    ensures Reached(r, ProcEntries(src.file, old(src.pos), blockLength, 0, old(h.proclist)), h.proclist, src.pos)
    ensures h.addrlist == old(h.addrlist) && h.machineInfo == old(h.machineInfo)
  {
    ghost var spec := ProcEntries(src.file, src.pos, blockLength, 0, h.proclist);
    var tot: nat := 0;
    while true
      invariant ProcEntries(src.file, src.pos, blockLength, tot, h.proclist) == spec
      invariant h.addrlist == old(h.addrlist) && h.machineInfo == old(h.machineInfo)
      decreases |src.file| - src.pos
    {
      var done;
      done, tot := ReadProcTurn(h, src, blockLength, tot);
      if done.Err? {
        return Err(done.error);
      }
      if done.value {
        return Ok(());
      }
    }
  }

  /** scap_fd_read_from_disk, for the record form this model gives fds. */
  method ReadFdRecordFrom(src: Source) returns (r: Result<FdInfo>)
    modifies src
    ensures Agrees(r, ReadFdRecord(src.file, old(src.pos)), src.pos)
  {
    var fd :- src.GetU64();
    var len :- src.GetU16();
    var bytes :- src.ReadExact(len);
    var body: FdBody := bytes;
    return Ok(FdInfo(fd, body));
  }

  /** FdEntries after one record that reads back. */
  lemma FdRecordStep(file: seq<byte>, pos: nat, blockLength: u32, tot: nat, acc: seq<FdInfo>, f: FdInfo, next: nat)
    requires Left(blockLength, tot) >= 4 && ReadFdRecord(file, pos) == Ok(Parsed(f, next))
    ensures FdEntries(file, pos, blockLength, tot, acc) == FdEntries(file, next, blockLength, tot + (next - pos), acc + [f])
  {
    FdRecordAdvances();
    EntriesStep(ReadFdRecord, file, pos, blockLength, tot, acc, f, next);
  }

  /** One turn of scap_read_fdlist's loop, from offset tot of the block: a record
      appended to the fd table of process i while at least 4 bytes are left (done is
      false), else the padding (done is true). */
  method ReadFdTurn(h: Scap, src: Source, i: nat, blockLength: u32, tot: nat) returns (r: Result<bool>, tot': nat)
    requires i < |h.proclist|
    modifies h, src
    ensures |h.proclist| == |old(h.proclist)|
    ensures h.proclist == old(h.proclist)[i := old(h.proclist)[i].(fdlist := h.proclist[i].fdlist)]
    ensures r == Ok(false) ==> old(src.pos) < src.pos <= |src.file|
    ensures FdEntries(src.file, old(src.pos), blockLength, tot, old(h.proclist)[i].fdlist)
      == match r
         case Ok(done) =>
           if done then Ok(Parsed(h.proclist[i].fdlist, src.pos))
           else FdEntries(src.file, src.pos, blockLength, tot', h.proclist[i].fdlist)
         case Err(e) => Err(e)
    ensures h.addrlist == old(h.addrlist) && h.machineInfo == old(h.machineInfo)
  {
    FdRecordAdvances();
    tot' := tot;
    if Left(blockLength, tot) >= 4 {
      var before, fds := src.pos, h.proclist[i].fdlist;
      var fdi := ReadFdRecordFrom(src);
      if fdi.Err? {
        EntriesFailed(ReadFdRecord, src.file, before, blockLength, tot, fds, fdi.error);
        return Err(fdi.error), tot';
      }
      var e, after := fdi.value, src.pos;
      EntriesStep(ReadFdRecord, src.file, before, blockLength, tot, fds, e, after);
      h.proclist := h.proclist[i := h.proclist[i].(fdlist := fds + [e])];
      return Ok(false), tot + (after - before);
    }
    var pad := ReadEntriesPadding(src, ReadFdRecord, blockLength, tot, h.proclist[i].fdlist);
    if pad.Err? {
      return Err(pad.error), tot';
    }
    return Ok(true), tot';
  }

  /** ReadFdBlock once the tid is read and its process found. */
  lemma {:induction false} FdBlockOfTid(file: seq<byte>, pos: nat, blockLength: u32, procs: seq<ThreadInfo>, tid: u64, next: nat, i: nat)
    requires ReadU64(file, pos) == Ok(Parsed(tid, next)) && FindTid(procs, tid) == Some(i)
    ensures i < |procs|
    ensures ReadFdBlock(file, pos, blockLength, procs)
      == match FdEntries(file, next, blockLength, 8, procs[i].fdlist)
         case Ok(p) => Ok(Parsed(procs[i := procs[i].(fdlist := p.value)], p.next))
         case Err(e) => Err(e)
  {
  }

  /** scap_read_fdlist: the records go straight into the owning process's fd table. */
  method ReadFdList(h: Scap, src: Source, blockLength: u32) returns (r: Result<()>)
    modifies h, src
    ensures Reached(r, ReadFdBlock(src.file, old(src.pos), blockLength, old(h.proclist)), h.proclist, src.pos)
    ensures h.addrlist == old(h.addrlist) && h.machineInfo == old(h.machineInfo)
  {
    ghost var pos0 := src.pos;
    var tid :- src.GetU64();
    var found := FindTid(h.proclist, tid);
    if found.None? {
      return Err(MissingTid);
    }
    var i := found.value;
    ghost var procs0 := h.proclist;
    FdBlockOfTid(src.file, pos0, blockLength, procs0, tid, src.pos, i);
    ghost var spec := FdEntries(src.file, src.pos, blockLength, 8, procs0[i].fdlist);
    var tot: nat := 8;
    while true
      invariant |h.proclist| == |procs0| && i < |procs0|
      invariant h.proclist == procs0[i := procs0[i].(fdlist := h.proclist[i].fdlist)]
      invariant FdEntries(src.file, src.pos, blockLength, tot, h.proclist[i].fdlist) == spec
      invariant h.addrlist == old(h.addrlist) && h.machineInfo == old(h.machineInfo)
      decreases |src.file| - src.pos
    {
      var done;
      done, tot := ReadFdTurn(h, src, i, blockLength, tot);
      if done.Err? {
        return Err(done.error);
      }
      if done.value {
        assert h.proclist == procs0[i := procs0[i].(fdlist := h.proclist[i].fdlist)];
        assert spec == Ok(Parsed(h.proclist[i].fdlist, src.pos));
        return Ok(());
      }
    }
  }

  /** toread in both passes of scap_read_iflist, (int32_t)block_length -
      (int32_t)totreadsize stored in a uint32_t, is the plain number of bytes left. */
  lemma ToReadIsRemaining(blockLength: u32, tot: nat)
    requires tot <= blockLength
    ensures Wrap32(AsInt32(blockLength) - AsInt32(Wrap32(tot))) == blockLength - tot
  {
    var d := AsInt32(blockLength) - AsInt32(tot);
    assert d == blockLength - tot || d == blockLength - tot - U32_MODULUS || d == blockLength - tot + U32_MODULUS;
  }

  /** The first pass over the block's bytes: how many entries of each family. */
  method CountInterfaces(buf: seq<byte>) returns (r: Result<(nat, nat)>)
    ensures r == IfCount(buf, 0, 0, 0)
  {
    var tot: nat := 0;
    var n4: nat := 0;
    var n6: nat := 0;
    while |buf| - tot >= 4
      invariant tot <= |buf|
      invariant IfCount(buf, tot, n4, n6) == IfCount(buf, 0, 0, 0)
      decreases |buf| - tot
    {
      var ifType := IfTypeAt(buf, tot);
      var nameLen := IfNameLenAt(buf, tot);
      if ifType == SCAP_FD_IPV4_SOCK {
        var entrySize := IPV4_ENTRY_FIXED + nameLen;
        if |buf| - tot < entrySize {
          return Err(CorruptInterfaceList);
        }
        tot := tot + entrySize;
        n4 := n4 + 1;
      } else if ifType == SCAP_FD_IPV6_SOCK {
        var entrySize := IPV6_ENTRY_FIXED + nameLen;
        if |buf| - tot < entrySize {
          return Err(CorruptInterfaceList);
        }
        tot := tot + entrySize;
        n6 := n6 + 1;
      } else {
        return Err(UnknownInterfaceType);
      }
    }
    return Ok((n4, n6));
  }

  /** An IPv4 entry of the second pass, whose first pass succeeded: it fits, and both
      passes go on past it. */
  lemma IfStep4(buf: seq<byte>, tot: nat, next: nat, c4: nat, c6: nat, v4: seq<IfInfo4>, v6: seq<IfInfo6>)
    requires tot + 4 <= |buf| && IfCount(buf, tot, c4, c6).Ok?
    requires IfNameLenAt(buf, tot) < SCAP_MAX_PATH_SIZE && IfTypeAt(buf, tot) == SCAP_FD_IPV4_SOCK
    requires next == tot + IPV4_ENTRY_FIXED + IfNameLenAt(buf, tot)
    ensures next <= |buf|
    ensures IfCount(buf, next, c4 + 1, c6) == IfCount(buf, tot, c4, c6)
    ensures IfFill(buf, next, v4 + [DecIf4(buf, tot)], v6) == IfFill(buf, tot, v4, v6)
  {
  }

  /** Any other entry of the second pass, whose first pass succeeded, is an IPv6 entry
      that fits. */
  lemma IfStep6(buf: seq<byte>, tot: nat, next: nat, c4: nat, c6: nat, v4: seq<IfInfo4>, v6: seq<IfInfo6>)
    requires tot + 4 <= |buf| && IfCount(buf, tot, c4, c6).Ok?
    requires IfNameLenAt(buf, tot) < SCAP_MAX_PATH_SIZE && IfTypeAt(buf, tot) != SCAP_FD_IPV4_SOCK
    requires next == tot + IPV6_ENTRY_FIXED + IfNameLenAt(buf, tot)
    ensures IfTypeAt(buf, tot) == SCAP_FD_IPV6_SOCK
    ensures next <= |buf|
    ensures IfCount(buf, next, c4, c6 + 1) == IfCount(buf, tot, c4, c6)
    ensures IfFill(buf, next, v4, v6 + [DecIf6(buf, tot)]) == IfFill(buf, tot, v4, v6)
  {
  }

  /** memcpy of the IPv4 entry at tot into slot c4, the one after the entries copied
      so far; the first pass counted it, so the slot exists. */
  method CopyIf4(buf: seq<byte>, tot: nat, v4: array<IfInfo4>, c4: nat, c6: nat, n6: nat,
                 ghost l4: seq<IfInfo4>, ghost l6: seq<IfInfo6>) returns (next: nat)
    requires tot + 4 <= |buf| && IfCount(buf, tot, c4, c6) == Ok((v4.Length, n6))
    requires IfNameLenAt(buf, tot) < SCAP_MAX_PATH_SIZE && IfTypeAt(buf, tot) == SCAP_FD_IPV4_SOCK
    requires c4 == |l4| && v4[..c4] == l4
    modifies v4
    ensures next == tot + IPV4_ENTRY_FIXED + IfNameLenAt(buf, tot) <= |buf|
    ensures c4 < v4.Length && v4[..c4 + 1] == l4 + [DecIf4(buf, tot)]
    ensures IfCount(buf, next, c4 + 1, c6) == Ok((v4.Length, n6))
    ensures IfFill(buf, next, l4 + [DecIf4(buf, tot)], l6) == IfFill(buf, tot, l4, l6)
  {
    next := tot + IPV4_ENTRY_FIXED + IfNameLenAt(buf, tot);
    IfStep4(buf, tot, next, c4, c6, l4, l6);
    v4[c4] := DecIf4(buf, tot);
    assert v4[..c4 + 1] == v4[..c4] + [DecIf4(buf, tot)];
  }

  /** The same for an entry of any other type, which the first pass let through only
      as an IPv6 entry. */
  method CopyIf6(buf: seq<byte>, tot: nat, v6: array<IfInfo6>, c4: nat, c6: nat, n4: nat,
                 ghost l4: seq<IfInfo4>, ghost l6: seq<IfInfo6>) returns (next: nat)
    requires tot + 4 <= |buf| && IfCount(buf, tot, c4, c6) == Ok((n4, v6.Length))
    requires IfNameLenAt(buf, tot) < SCAP_MAX_PATH_SIZE && IfTypeAt(buf, tot) != SCAP_FD_IPV4_SOCK
    requires c6 == |l6| && v6[..c6] == l6
    modifies v6
    ensures IfTypeAt(buf, tot) == SCAP_FD_IPV6_SOCK
    ensures next == tot + IPV6_ENTRY_FIXED + IfNameLenAt(buf, tot) <= |buf|
    ensures c6 < v6.Length && v6[..c6 + 1] == l6 + [DecIf6(buf, tot)]
    ensures IfCount(buf, next, c4, c6 + 1) == Ok((n4, v6.Length))
    ensures IfFill(buf, next, l4, l6 + [DecIf6(buf, tot)]) == IfFill(buf, tot, l4, l6)
  {
    next := tot + IPV6_ENTRY_FIXED + IfNameLenAt(buf, tot);
    IfStep6(buf, tot, next, c4, c6, l4, l6);
    v6[c6] := DecIf6(buf, tot);
    assert v6[..c6 + 1] == v6[..c6] + [DecIf6(buf, tot)];
  }

  /** The second pass: each entry copied into the next free slot of its family's
      array, which the first pass sized. */
  method FillInterfaces(buf: seq<byte>, n4: nat, n6: nat) returns (r: Result<AddrList>)
    requires |buf| < U32_MODULUS
    requires IfCount(buf, 0, 0, 0) == Ok((n4, n6))
    ensures r == IlDecode(buf)
  {
    var v4 := new IfInfo4[n4](_ => IfInfo4(0, 0, 0, 0, []));
    var v6 := new IfInfo6[n6](_ => IfInfo6(0, Zeros(16), Zeros(16), Zeros(16), []));
    var c4: nat := 0;
    var c6: nat := 0;
    var tot: nat := 0;
    ghost var l4: seq<IfInfo4> := [];
    ghost var l6: seq<IfInfo6> := [];
    while |buf| - tot >= 4
      invariant tot <= |buf| && c4 == |l4| && c6 == |l6|
      invariant v4.Length == n4 && v6.Length == n6 && c4 <= n4 && c6 <= n6
      invariant v4[..c4] == l4 && v6[..c6] == l6
      invariant IfCount(buf, tot, c4, c6) == Ok((n4, n6))
      invariant IfFill(buf, tot, l4, l6) == IfFill(buf, 0, [], [])
      decreases |buf| - tot
    {
      if IfNameLenAt(buf, tot) >= SCAP_MAX_PATH_SIZE {
        return Err(CorruptInterfaceList);
      }
      // The first pass has already rejected any other type and any entry longer
      // than the bytes left, so the second pass's checks for those cannot fire.
      var next;
      if IfTypeAt(buf, tot) == SCAP_FD_IPV4_SOCK {
        next := CopyIf4(buf, tot, v4, c4, c6, n6, l4, l6);
        l4 := l4 + [DecIf4(buf, tot)];
        c4 := c4 + 1;
      } else {
        next := CopyIf6(buf, tot, v6, c4, c6, n4, l4, l6);
        l6 := l6 + [DecIf6(buf, tot)];
        c6 := c6 + 1;
      }
      tot := next;
    }
    assert v4[..] == l4 && v6[..] == l6;
    return Ok(AddrList(v4[..], v6[..], tot));
  }

  /** scap_read_iflist: the handle's list is dropped, the block is read whole and
      decoded in two passes; the list is set only when both succeed. */
  method ReadIfList(h: Scap, src: Source, blockLength: u32) returns (r: Result<()>)
    modifies h, src
    ensures match ReadIlBlock(src.file, old(src.pos), blockLength)
      case Ok(p) => r == Ok(()) && h.addrlist == Some(p.value) && src.pos == p.next
      case Err(e) => r == Err(e) && h.addrlist == None
    ensures h.proclist == old(h.proclist) && h.machineInfo == old(h.machineInfo)
  {
    h.addrlist := None;
    var buf :- src.ReadExact(blockLength);
    var counts :- CountInterfaces(buf);
    var al :- FillInterfaces(buf, counts.0, counts.1);
    h.addrlist := Some(al);
    return Ok(());
  }

  /** scap_read_machine_info: sizeof(scap_machine_info) bytes straight into the
      handle; the block length it is given is not used. */
  method ReadMachineInfo(h: Scap, src: Source) returns (r: Result<()>)
    modifies h, src
    ensures Reached(r, ReadBytes(src.file, old(src.pos), MACHINE_INFO_SIZE), h.machineInfo, src.pos)
    ensures h.proclist == old(h.proclist) && h.addrlist == old(h.addrlist)
  {
    var mi :- src.ReadExact(MACHINE_INFO_SIZE);
    h.machineInfo := mi;
    return Ok(());
  }

  /** The tables of a handle, as the value the metadata decoder threads through. */
  function HandleTables(h: Scap): Meta
    reads h
  {
    Meta(h.proclist, h.addrlist, h.machineInfo)
  }

  /** One arm of the switch in scap_read_init, by block type; the default arm skips
      the body, rejecting a total length too short to hold the header and trailer. */
  method ReadBlockBodyFrom(h: Scap, src: Source, blockType: u32, total: u32) returns (r: Result<()>)
    modifies h, src
    ensures Reached(r, ReadBlockBody(src.file, old(src.pos), blockType, total, old(HandleTables(h))), HandleTables(h), src.pos)
  {
    var blockLength := Wrap32(total - BLOCK_HEADER_SIZE - TRAILER_SIZE);
    if blockType == MI_BLOCK_TYPE {
      r := ReadMachineInfo(h, src);
    } else if blockType == PL_BLOCK_TYPE {
      r := ReadProcList(h, src, blockLength);
    } else if blockType == FDL_BLOCK_TYPE {
      r := ReadFdList(h, src, blockLength);
    } else if blockType == IL_BLOCK_TYPE {
      r := ReadIfList(h, src, blockLength);
    } else {
      if total < BLOCK_HEADER_SIZE + TRAILER_SIZE {
        return Err(BlockLengthTooShort);
      }
      var ok := src.Seek(total - BLOCK_HEADER_SIZE - TRAILER_SIZE);
      // A forward seek cannot fail.
      assert ok;
      r := Ok(());
    }
  }

  /** The body of the metadata loop of scap_read_init: a block header, then either
      the rewind over an event block's header (true: the loop ends) or that block
      read by type and its trailer checked (false). */
  method ReadMetadataBlock(h: Scap, src: Source) returns (r: Result<bool>)
    modifies h, src
    ensures match MetadataTurn(src.file, old(src.pos), old(HandleTables(h)))
      case Ok(Stop) => r == Ok(true) && src.pos == old(src.pos) && HandleTables(h) == old(HandleTables(h))
      case Ok(Go(st, next)) => r == Ok(false) && src.pos == next && HandleTables(h) == st
      case Err(e) => r == Err(e)
  {
    var hdr :- src.ReadExact(BLOCK_HEADER_SIZE);
    var blockType := U32At(hdr, 0);
    var total := U32At(hdr, 4);
    if blockType == EV_BLOCK_TYPE {
      // Rewinding over the header just read cannot fail.
      var ok := src.Seek(-(BLOCK_HEADER_SIZE as int));
      assert ok;
      return Ok(true);
    }
    var body := ReadBlockBodyFrom(h, src, blockType, total);
    if body.Err? {
      return Err(body.error);
    }
    var trailer :- src.GetU32();
    if trailer != total {
      return Err(WrongTrailer);
    }
    return Ok(false);
  }

  /** scap_read_init on an open file: the section header, then the metadata blocks
      into the handle's tables until the first event block, on whose header the
      file is left. */
  method ReadInit(h: Scap, src: Source) returns (r: Result<()>)
    modifies h, src
    ensures Reached(r, ReadInitSpec(src.file, old(src.pos), old(HandleTables(h))), HandleTables(h), src.pos)
  {
    var bh :- src.ReadExact(BLOCK_HEADER_SIZE);
    var sh :- src.ReadExact(SECTION_HEADER_SIZE);
    var bt :- src.ReadExact(TRAILER_SIZE);
    if U32At(bh, 0) != SHB_BLOCK_TYPE {
      return Err(InvalidBlockType);
    }
    if U32At(sh, 0) != SHB_MAGIC {
      return Err(InvalidMagic);
    }
    ghost var spec := ReadInitSpec(src.file, old(src.pos), old(HandleTables(h)));
    while true
      invariant ReadMetadata(src.file, src.pos, HandleTables(h)) == spec
      decreases |src.file| - src.pos
    {
      var done :- ReadMetadataBlock(h, src);
      if done {
        return Ok(());
      }
    }
  }

  /** scap_next_offline: the next event block's cpu id and event, or the end of the
      file when not a single byte is left. */
  method NextOffline(src: Source) returns (r: Result<Next>)
    modifies src
    ensures Agrees(r, NextEvent(src.file, old(src.pos)), src.pos)
  {
    var got := src.Read(BLOCK_HEADER_SIZE);
    if |got| != BLOCK_HEADER_SIZE {
      if |got| == 0 {
        return Ok(EndOfFile);
      }
      return Err(ReadError);
    }
    if U32At(got, 0) != EV_BLOCK_TYPE {
      return Err(UnexpectedBlockType);
    }
    var total := U32At(got, 4);
    if total < BLOCK_HEADER_SIZE + EVENT_HEADER_SIZE + TRAILER_SIZE {
      return Err(BlockTooShort);
    }
    var body :- src.ReadExact(total - BLOCK_HEADER_SIZE);
    return Ok(Event(U16At(body, 0), body[2..]));
  }
}
