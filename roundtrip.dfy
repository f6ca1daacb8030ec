/** What the readers of scap_savefile.c make of the bytes its writers emit: each
    record, each block and a whole capture file read back into the tables they
    were written from. */
module RoundTrip {
  import opened Bytes
  import opened Seqs
  import opened Block
  import opened Streams
  import opened Tables
  import opened SaveWrite
  import opened SaveRead

  // ---------------------------------------------------------------------------
  // Records

  /** A process the reader takes back whole: each string it writes is shorter than
      SCAP_MAX_PATH_SIZE, the longest the reader accepts. */
  predicate ProcReadable(t: ThreadInfo)
  {
    && CStrLen(t.comm) < SCAP_MAX_PATH_SIZE
    && CStrLen(t.exe) < SCAP_MAX_PATH_SIZE
    && |t.args| < SCAP_MAX_PATH_SIZE
    && CStrLen(t.cwd) < SCAP_MAX_PATH_SIZE
  }

  /** The entry the process-list reader rebuilds from a written process: the C
      strings of comm, exe and cwd (args is written with its own length), and no
      fds yet. */
  function Reloaded(t: ThreadInfo): (r: ThreadInfo)
    ensures r.tid == t.tid && r.fdlist == []
  {
    t.(comm := CStr(t.comm), exe := CStr(t.exe), cwd := CStr(t.cwd), fdlist := [])
  }

  lemma {:induction false} ReadStrAt(file: seq<byte>, pos: nat, s: PathBuf, next: nat)
    requires |s| < SCAP_MAX_PATH_SIZE && IsAt(file, pos, EncStr(s)) && next == pos + 2 + |s|
    ensures ReadStr(file, pos) == Ok(Parsed(s, next))
  {
    IsAtSplit(file, pos, EncU16(|s|), s);
    IsAtSlice(file, pos + 2, s);
    ReadU16At(file, pos, |s|);
  }

  /** The three ids that open a written process-list entry read back. */
  lemma {:induction false} ReadProcIdsAt(file: seq<byte>, pos: nat, t: ThreadInfo)
    requires IsAt(file, pos, ProcIds(t))
    ensures ReadProcIds(file, pos) == Ok(Parsed((t.tid, t.pid, t.ppid), pos + 24))
  {
    IsAtSplit(file, pos, EncU64(t.tid) + EncU64(t.pid), EncU64(t.ppid));
    IsAtSplit(file, pos, EncU64(t.tid), EncU64(t.pid));
    ReadU64At(file, pos, t.tid);
    ReadU64At(file, pos + 8, t.pid);
    ReadU64At(file, pos + 16, t.ppid);
  }

  /** Four strings written one after the other read back. */
  lemma {:induction false} StrQuadRead(file: seq<byte>, c: nat, s0: PathBuf, s1: PathBuf, s2: PathBuf, s3: PathBuf, f: nat)
    requires IsAt(file, c, EncStr(s0) + EncStr(s1) + EncStr(s2) + EncStr(s3))
    requires |s0| < SCAP_MAX_PATH_SIZE && |s1| < SCAP_MAX_PATH_SIZE
    requires |s2| < SCAP_MAX_PATH_SIZE && |s3| < SCAP_MAX_PATH_SIZE
    requires f == c + 8 + |s0| + |s1| + |s2| + |s3|
    ensures ReadProcStrings(file, c) == Ok(Parsed((s0, s1, s2, s3), f))
  {
    var e := c + 2 + |s0|;
    var a := e + 2 + |s1|;
    var w := a + 2 + |s2|;
    IsAtSplit4(file, c, EncStr(s0), EncStr(s1), EncStr(s2), EncStr(s3), e, a, w);
    ReadStrAt(file, c, s0, e);
    ReadStrAt(file, e, s1, a);
    ReadStrAt(file, a, s2, w);
    ReadStrAt(file, w, s3, f);
  }

  /** The fd limit and flag words that close a written process-list entry read back. */
  lemma {:induction false} ReadProcLimitsAt(file: seq<byte>, f: nat, t: ThreadInfo, n: nat)
    requires IsAt(file, f, ProcLimits(t)) && n == f + 20
    ensures ReadProcLimits(file, f) == Ok(Parsed((t.fdlimit, t.flags, t.uid, t.gid), n))
  {
    var l0, l1, l2, l3 := EncU64(t.fdlimit), EncU32(t.flags), EncU32(t.uid), EncU32(t.gid);
    IsAtSplit(file, f, l0 + l1 + l2, l3);
    IsAtSplit(file, f, l0 + l1, l2);
    IsAtSplit(file, f, l0, l1);
    ReadU64At(file, f, t.fdlimit);
    ReadU32At(file, f + 8, t.flags);
    ReadU32At(file, f + 12, t.uid);
    ReadU32At(file, f + 16, t.gid);
  }

  /** Where the three parts of a written process-list entry start. */
  lemma {:induction false} ProcPartsAt(file: seq<byte>, pos: nat, t: ThreadInfo, f: nat)
    requires IsAt(file, pos, EncProc(t))
    requires f == pos + 24 + 8 + CStrLen(t.comm) + CStrLen(t.exe) + |t.args| + CStrLen(t.cwd)
    ensures IsAt(file, pos, ProcIds(t))
    ensures IsAt(file, pos + 24, ProcStrings(t))
    ensures IsAt(file, f, ProcLimits(t))
  {
    IsAtSplit(file, pos, ProcIds(t) + ProcStrings(t), ProcLimits(t));
    IsAtSplit(file, pos, ProcIds(t), ProcStrings(t));
  }

  /** ReadProcEntry assembles the entry from its three parts. */
  lemma ReadProcEntryParts(file: seq<byte>, pos: nat, ids: (u64, u64, u64),
                           names: (PathBuf, PathBuf, PathBuf, PathBuf), limits: (u64, u32, u32, u32), f: nat, n: nat)
    requires ReadProcIds(file, pos) == Ok(Parsed(ids, pos + 24))
    requires ReadProcStrings(file, pos + 24) == Ok(Parsed(names, f))
    requires ReadProcLimits(file, f) == Ok(Parsed(limits, n))
    ensures ReadProcEntry(file, pos)
         == Ok(Parsed(ThreadInfo(ids.0, ids.1, ids.2, names.0, names.1, names.2, names.3,
                                 limits.0, limits.1, limits.2, limits.3, []), n))
  {
  }

  /** The strings of a written process-list entry read back. */
  lemma {:induction false} ReadProcStringsAt(file: seq<byte>, c: nat, t: ThreadInfo, f: nat)
    requires ProcReadable(t) && IsAt(file, c, ProcStrings(t))
    requires f == c + 8 + CStrLen(t.comm) + CStrLen(t.exe) + |t.args| + CStrLen(t.cwd)
    ensures ReadProcStrings(file, c) == Ok(Parsed((CStr(t.comm), CStr(t.exe), t.args, CStr(t.cwd)), f))
  {
    StrQuadRead(file, c, CStr(t.comm), CStr(t.exe), t.args, CStr(t.cwd), f);
  }

  /** The three parts of a written process-list entry read back. */
  lemma {:induction false} ProcPartsRead(file: seq<byte>, pos: nat, t: ThreadInfo, f: nat, n: nat)
    requires ProcReadable(t) && IsAt(file, pos, EncProc(t))
    requires f == pos + 24 + 8 + CStrLen(t.comm) + CStrLen(t.exe) + |t.args| + CStrLen(t.cwd) && n == f + 20
    ensures ReadProcIds(file, pos) == Ok(Parsed((t.tid, t.pid, t.ppid), pos + 24))
    ensures ReadProcStrings(file, pos + 24) == Ok(Parsed((CStr(t.comm), CStr(t.exe), t.args, CStr(t.cwd)), f))
    ensures ReadProcLimits(file, f) == Ok(Parsed((t.fdlimit, t.flags, t.uid, t.gid), n))
  {
    ProcPartsAt(file, pos, t, f);
    ReadProcIdsAt(file, pos, t);
    ReadProcStringsAt(file, pos + 24, t, f);
    ReadProcLimitsAt(file, f, t, n);
  }

  /** A process-list entry whose three parts read back reads back as the reloaded process. */
  lemma ReadProcEntryOfParts(file: seq<byte>, pos: nat, t: ThreadInfo, f: nat, n: nat)
    requires ReadProcIds(file, pos) == Ok(Parsed((t.tid, t.pid, t.ppid), pos + 24))
    requires ReadProcStrings(file, pos + 24) == Ok(Parsed((CStr(t.comm), CStr(t.exe), t.args, CStr(t.cwd)), f))
    requires ReadProcLimits(file, f) == Ok(Parsed((t.fdlimit, t.flags, t.uid, t.gid), n))
    ensures ReadProcEntry(file, pos) == Ok(Parsed(Reloaded(t), n))
  {
    ReadProcEntryParts(file, pos, (t.tid, t.pid, t.ppid), (CStr(t.comm), CStr(t.exe), t.args, CStr(t.cwd)),
                       (t.fdlimit, t.flags, t.uid, t.gid), f, n);
    assert Reloaded(t) == ThreadInfo(t.tid, t.pid, t.ppid, CStr(t.comm), CStr(t.exe), t.args, CStr(t.cwd),
                                     t.fdlimit, t.flags, t.uid, t.gid, []);
  }

  /** A process-list entry as written reads back as the reloaded process. */
  lemma {:induction false} ReadProcEntryEnds(file: seq<byte>, pos: nat, t: ThreadInfo, f: nat, n: nat)
    requires ProcReadable(t) && IsAt(file, pos, EncProc(t))
    requires f == pos + 24 + 8 + CStrLen(t.comm) + CStrLen(t.exe) + |t.args| + CStrLen(t.cwd) && n == f + 20
    ensures ReadProcEntry(file, pos) == Ok(Parsed(Reloaded(t), n))
  {
    ProcPartsRead(file, pos, t, f, n);
    ReadProcEntryOfParts(file, pos, t, f, n);
  }

  /** The entry's strings end 20 bytes before the entry. */
  lemma ProcEntryEnd(t: ThreadInfo, pos: nat, f: nat, next: nat)
    requires f == pos + 24 + 8 + CStrLen(t.comm) + CStrLen(t.exe) + |t.args| + CStrLen(t.cwd)
    requires next == pos + ProcLen(t)
    ensures next == f + 20
  {
  }

  /** A process-list entry as written reads back as the reloaded process, ProcLen bytes on. */
  lemma {:induction false} ReadProcEntryAt(file: seq<byte>, pos: nat, t: ThreadInfo, next: nat)
    requires ProcReadable(t) && IsAt(file, pos, EncProc(t)) && next == pos + ProcLen(t)
    ensures ReadProcEntry(file, pos) == Ok(Parsed(Reloaded(t), next))
  {
    var f := pos + 24 + 8 + CStrLen(t.comm) + CStrLen(t.exe) + |t.args| + CStrLen(t.cwd);
    ProcEntryEnd(t, pos, f, next);
    ReadProcEntryEnds(file, pos, t, f, next);
  }

  /** An fd record as written reads back unchanged. */
  lemma {:induction false} ReadFdRecordAt(file: seq<byte>, pos: nat, f: FdInfo)
    requires IsAt(file, pos, EncFd(f))
    ensures ReadFdRecord(file, pos) == Ok(Parsed(f, pos + FdInfoLen(f)))
  {
    IsAtSplit(file, pos, EncU64(f.fd) + EncU16(|f.body|), f.body);
    IsAtSplit(file, pos, EncU64(f.fd), EncU16(|f.body|));
    ReadU64At(file, pos, f.fd);
    ReadU16At(file, pos + 8, |f.body|);
    IsAtSlice(file, pos + 10, f.body);
  }

  // ---------------------------------------------------------------------------
  // The entry loops of the process-list and fd-list blocks

  /** The process table the reader rebuilds from a written one, in order. */
  function Reloads(procs: seq<ThreadInfo>): (r: seq<ThreadInfo>)
    ensures |r| == |procs|
  {
    if procs == [] then [] else [Reloaded(procs[0])] + Reloads(procs[1..])
  }

  /** Every process of the list is one the reader accepts. */
  predicate AllReadable(procs: seq<ThreadInfo>)
  {
    procs == [] || (ProcReadable(procs[0]) && AllReadable(procs[1..]))
  }

  /** While the block is below 2 GiB, the C code's int32_t difference is the true one. */
  lemma LeftExact(blockLength: u32, tot: nat)
    requires tot <= blockLength < 0x8000_0000
    ensures Left(blockLength, tot) == blockLength - tot
  {
  }

  /** The process loop once no entry is left: at most 3 bytes of padding. */
  lemma ProcEntriesDone(file: seq<byte>, pos: nat, blockLength: u32, tot: nat, acc: seq<ThreadInfo>,
                        pad: nat, end: nat)
    requires pad < 4 && end == pos + pad <= |file| && blockLength == tot + pad < 0x8000_0000
    ensures ProcEntries(file, pos, blockLength, tot, acc) == Ok(Parsed(acc, end))
  {
    LeftExact(blockLength, tot);
  }

  /** A written process list is its first entry followed by the rest. */
  lemma {:induction false} PlPayloadSplit(file: seq<byte>, pos: nat, procs: seq<ThreadInfo>, next: nat)
    requires procs != [] && IsAt(file, pos, PlPayload(procs)) && next == pos + ProcLen(procs[0])
    ensures IsAt(file, pos, EncProc(procs[0])) && IsAt(file, next, PlPayload(procs[1..]))
  {
    ProcLenIsEncodedLength(procs[0]);
    ConcatMapSplitAt(file, pos, procs, EncProc, next);
  }

  /** The first entry of a written process list reads back, and the rest follows it. */
  lemma {:induction false} FirstProcRead(file: seq<byte>, pos: nat, procs: seq<ThreadInfo>, next: nat)
    requires procs != [] && ProcReadable(procs[0]) && IsAt(file, pos, PlPayload(procs))
    requires next == pos + ProcLen(procs[0])
    ensures ReadProcEntry(file, pos) == Ok(Parsed(Reloaded(procs[0]), next))
    ensures IsAt(file, next, PlPayload(procs[1..]))
  {
    PlPayloadSplit(file, pos, procs, next);
    ReadProcEntryAt(file, pos, procs[0], next);
  }

  /** The loop's arithmetic on one entry: at least 4 bytes were left, and tot grows by the entry. */
  lemma ProcTurn(blockLength: u32, tot: nat, tot': nat, pos: nat, next: nat, t: ThreadInfo)
    requires next == pos + ProcLen(t) && tot' == tot + ProcLen(t) && tot' <= blockLength < 0x8000_0000
    ensures Left(blockLength, tot) >= 4 && tot' == tot + (next - pos)
  {
    LeftExact(blockLength, tot);
  }

  lemma PlPayloadFront(procs: seq<ThreadInfo>)
    requires procs != []
    ensures |PlPayload(procs)| == ProcLen(procs[0]) + |PlPayload(procs[1..])|
  {
    ConcatMapFront(procs, EncProc);
    ProcLenIsEncodedLength(procs[0]);
  }

  lemma {:induction false} ReloadsFront(acc: seq<ThreadInfo>, procs: seq<ThreadInfo>)
    requires procs != []
    ensures acc + [Reloaded(procs[0])] + Reloads(procs[1..]) == acc + Reloads(procs)
  {
  }

  /** The process loop reads every written entry, in order, and then the padding. */
  lemma {:induction false} ProcEntriesOfPayload(file: seq<byte>, pos: nat, blockLength: u32, tot: nat,
                                                acc: seq<ThreadInfo>, procs: seq<ThreadInfo>, pad: nat, end: nat)
    requires AllReadable(procs) && IsAt(file, pos, PlPayload(procs))
    requires pad < 4 && end == pos + |PlPayload(procs)| + pad <= |file|
    requires blockLength == tot + |PlPayload(procs)| + pad < 0x8000_0000
    ensures ProcEntries(file, pos, blockLength, tot, acc) == Ok(Parsed(acc + Reloads(procs), end))
    decreases |procs|
  {
    if procs == [] {
      assert acc + Reloads(procs) == acc;
      ProcEntriesDone(file, pos, blockLength, tot, acc, pad, end);
    } else {
      var rest := procs[1..];
      var next := pos + ProcLen(procs[0]);
      var tot' := tot + ProcLen(procs[0]);
      PlPayloadFront(procs);
      FirstProcRead(file, pos, procs, next);
      ProcTurn(blockLength, tot, tot', pos, next, procs[0]);
      ProcEntryStep(file, pos, blockLength, tot, acc, Reloaded(procs[0]), next);
      ProcEntriesOfPayload(file, next, blockLength, tot', acc + [Reloaded(procs[0])], rest, pad, end);
      ReloadsFront(acc, procs);
    }
  }

  /** The fd loop once no record is left: at most 3 bytes of padding. */
  lemma FdEntriesDone(file: seq<byte>, pos: nat, blockLength: u32, tot: nat, acc: seq<FdInfo>,
                      pad: nat, end: nat)
    requires pad < 4 && end == pos + pad <= |file| && blockLength == tot + pad < 0x8000_0000
    ensures FdEntries(file, pos, blockLength, tot, acc) == Ok(Parsed(acc, end))
  {
    LeftExact(blockLength, tot);
  }

  lemma FdsPayloadFront(fds: seq<FdInfo>)
    requires fds != []
    ensures |FdsPayload(fds)| == FdInfoLen(fds[0]) + |FdsPayload(fds[1..])|
  {
    ConcatMapFront(fds, EncFd);
  }

  /** The first record of a written fd list reads back, and the rest follows it. */
  lemma {:induction false} FirstFdRead(file: seq<byte>, pos: nat, fds: seq<FdInfo>, next: nat)
    requires fds != [] && IsAt(file, pos, FdsPayload(fds)) && next == pos + FdInfoLen(fds[0])
    ensures ReadFdRecord(file, pos) == Ok(Parsed(fds[0], next))
    ensures IsAt(file, next, FdsPayload(fds[1..]))
  {
    ConcatMapSplitAt(file, pos, fds, EncFd, next);
    ReadFdRecordAt(file, pos, fds[0]);
  }

  /** The loop's arithmetic on one record: at least 4 bytes were left, and tot grows by the record. */
  lemma FdTurn(blockLength: u32, tot: nat, tot': nat, pos: nat, next: nat, f: FdInfo)
    requires next == pos + FdInfoLen(f) && tot' == tot + FdInfoLen(f) && tot' <= blockLength < 0x8000_0000
    ensures Left(blockLength, tot) >= 4 && tot' == tot + (next - pos)
  {
    LeftExact(blockLength, tot);
  }

  /** The fd loop reads every written record, in order, and then the padding. */
  lemma {:induction false} FdEntriesOfPayload(file: seq<byte>, pos: nat, blockLength: u32, tot: nat,
                                              acc: seq<FdInfo>, fds: seq<FdInfo>, pad: nat, end: nat)
    requires IsAt(file, pos, FdsPayload(fds))
    requires pad < 4 && end == pos + |FdsPayload(fds)| + pad <= |file|
    requires blockLength == tot + |FdsPayload(fds)| + pad < 0x8000_0000
    ensures FdEntries(file, pos, blockLength, tot, acc) == Ok(Parsed(acc + fds, end))
    decreases |fds|
  {
    if fds == [] {
      assert acc + fds == acc;
      FdEntriesDone(file, pos, blockLength, tot, acc, pad, end);
    } else {
      var rest := fds[1..];
      var next := pos + FdInfoLen(fds[0]);
      var tot' := tot + FdInfoLen(fds[0]);
      FdsPayloadFront(fds);
      FirstFdRead(file, pos, fds, next);
      FdTurn(blockLength, tot, tot', pos, next, fds[0]);
      FdRecordStep(file, pos, blockLength, tot, acc, fds[0], next);
      FdEntriesOfPayload(file, next, blockLength, tot', acc + [fds[0]], rest, pad, end);
      assert acc + [fds[0]] + rest == acc + fds;
    }
  }

  /** A written fd-list block body read back: the tid names process i of the table,
      whose fd table gains the written records, in order. */
  lemma {:induction false} ReadFdBlockAt(file: seq<byte>, pos: nat, t: ThreadInfo, procs: seq<ThreadInfo>, i: nat,
                      blockLength: u32, pad: nat, end: nat)
    requires IsAt(file, pos, EncU64(t.tid) + FdsPayload(t.fdlist)) && FindTid(procs, t.tid) == Some(i)
    requires pad < 4 && end == pos + 8 + |FdsPayload(t.fdlist)| + pad <= |file|
    requires blockLength == 8 + |FdsPayload(t.fdlist)| + pad < 0x8000_0000
    ensures ReadFdBlock(file, pos, blockLength, procs)
         == Ok(Parsed(procs[i := procs[i].(fdlist := procs[i].fdlist + t.fdlist)], end))
  {
    IsAtSplit(file, pos, EncU64(t.tid), FdsPayload(t.fdlist));
    ReadU64At(file, pos, t.tid);
    FdEntriesOfPayload(file, pos + 8, blockLength, 8, procs[i].fdlist, t.fdlist, pad, end);
  }

  // ---------------------------------------------------------------------------
  // The interface list block

  /** An IPv4 entry as written is found entire by both passes, with its type and
      name length where they look for them, and decodes to itself. */
  lemma {:induction false} DecIf4At(buf: seq<byte>, at: nat, e: IfInfo4)
    requires IsAt(buf, at, EncIf4(e)) && e.ifType == SCAP_FD_IPV4_SOCK && |e.name| < SCAP_MAX_PATH_SIZE
    ensures at + 4 <= |buf| && IfTypeAt(buf, at) == SCAP_FD_IPV4_SOCK && IfNameLenAt(buf, at) == |e.name|
    ensures at + IPV4_ENTRY_FIXED + |e.name| <= |buf| && DecIf4(buf, at) == e
  {
    var a, b, c, d, g := EncU16(e.ifType), EncU16(|e.name|), EncU32(e.addr), EncU32(e.netmask), EncU32(e.bcast);
    IsAtSplit(buf, at, a + b + c + d + g, e.name);
    IsAtSplit(buf, at, a + b + c + d, g);
    IsAtSplit(buf, at, a + b + c, d);
    IsAtSplit(buf, at, a + b, c);
    IsAtSplit(buf, at, a, b);
    IsAtSlice(buf, at, a);
    IsAtSlice(buf, at + 2, b);
    IsAtSlice(buf, at + 4, c);
    IsAtSlice(buf, at + 8, d);
    IsAtSlice(buf, at + 12, g);
    IsAtSlice(buf, at + 16, e.name);
    U16AtEnc(buf, at, e.ifType);
    U16AtEnc(buf, at + 2, |e.name|);
    U32AtEnc(buf, at + 4, e.addr);
    U32AtEnc(buf, at + 8, e.netmask);
    U32AtEnc(buf, at + 12, e.bcast);
  }

  /** The same for an IPv6 entry. */
  lemma {:induction false} DecIf6At(buf: seq<byte>, at: nat, e: IfInfo6)
    requires IsAt(buf, at, EncIf6(e)) && e.ifType == SCAP_FD_IPV6_SOCK && |e.name| < SCAP_MAX_PATH_SIZE
    ensures at + 4 <= |buf| && IfTypeAt(buf, at) == SCAP_FD_IPV6_SOCK && IfNameLenAt(buf, at) == |e.name|
    ensures at + IPV6_ENTRY_FIXED + |e.name| <= |buf| && DecIf6(buf, at) == e
  {
    var a, b := EncU16(e.ifType), EncU16(|e.name|);
    IsAtSplit(buf, at, a + b + e.addr + e.netmask + e.bcast, e.name);
    IsAtSplit(buf, at, a + b + e.addr + e.netmask, e.bcast);
    IsAtSplit(buf, at, a + b + e.addr, e.netmask);
    IsAtSplit(buf, at, a + b, e.addr);
    IsAtSplit(buf, at, a, b);
    IsAtSlice(buf, at, a);
    IsAtSlice(buf, at + 2, b);
    IsAtSlice(buf, at + 4, e.addr);
    IsAtSlice(buf, at + 20, e.netmask);
    IsAtSlice(buf, at + 36, e.bcast);
    IsAtSlice(buf, at + 52, e.name);
    U16AtEnc(buf, at, e.ifType);
    U16AtEnc(buf, at + 2, |e.name|);
  }

  /** The first pass steps over a written IPv4 entry and counts it. */
  lemma CountStep4(buf: seq<byte>, tot: nat, e: IfInfo4, n4: nat, n6: nat, next: nat)
    requires IsAt(buf, tot, EncIf4(e)) && e.ifType == SCAP_FD_IPV4_SOCK && |e.name| < SCAP_MAX_PATH_SIZE
    requires next == tot + If4Len(e)
    ensures next <= |buf| && IfCount(buf, tot, n4, n6) == IfCount(buf, next, n4 + 1, n6)
  {
    DecIf4At(buf, tot, e);
  }

  /** The second pass steps over a written IPv4 entry and collects it. */
  lemma {:induction false} FillStep4(buf: seq<byte>, tot: nat, e: IfInfo4, v4: seq<IfInfo4>, v6: seq<IfInfo6>, next: nat)
    requires IsAt(buf, tot, EncIf4(e)) && e.ifType == SCAP_FD_IPV4_SOCK && |e.name| < SCAP_MAX_PATH_SIZE
    requires next == tot + If4Len(e)
    ensures next <= |buf| && IfFill(buf, tot, v4, v6) == IfFill(buf, next, v4 + [e], v6)
  {
    DecIf4At(buf, tot, e);
  }

  lemma CountStep6(buf: seq<byte>, tot: nat, e: IfInfo6, n4: nat, n6: nat, next: nat)
    requires IsAt(buf, tot, EncIf6(e)) && e.ifType == SCAP_FD_IPV6_SOCK && |e.name| < SCAP_MAX_PATH_SIZE
    requires next == tot + If6Len(e)
    ensures next <= |buf| && IfCount(buf, tot, n4, n6) == IfCount(buf, next, n4, n6 + 1)
  {
    DecIf6At(buf, tot, e);
  }

  lemma {:induction false} FillStep6(buf: seq<byte>, tot: nat, e: IfInfo6, v4: seq<IfInfo4>, v6: seq<IfInfo6>, next: nat)
    requires IsAt(buf, tot, EncIf6(e)) && e.ifType == SCAP_FD_IPV6_SOCK && |e.name| < SCAP_MAX_PATH_SIZE
    requires next == tot + If6Len(e)
    ensures next <= |buf| && IfFill(buf, tot, v4, v6) == IfFill(buf, next, v4, v6 + [e])
  {
    DecIf6At(buf, tot, e);
  }

  /** Every entry of a run carries the IPv4 tag and a name the reader accepts. */
  predicate Ifs4Ok(xs: seq<IfInfo4>)
  {
    xs != [] ==> xs[0].ifType == SCAP_FD_IPV4_SOCK && |xs[0].name| < SCAP_MAX_PATH_SIZE && Ifs4Ok(xs[1..])
  }

  predicate Ifs6Ok(xs: seq<IfInfo6>)
  {
    xs != [] ==> xs[0].ifType == SCAP_FD_IPV6_SOCK && |xs[0].name| < SCAP_MAX_PATH_SIZE && Ifs6Ok(xs[1..])
  }

  /** The first entry of a written run, and the rest after it. */
  lemma {:induction false} RunFront4(buf: seq<byte>, tot: nat, xs: seq<IfInfo4>, next: nat)
    requires xs != [] && IsAt(buf, tot, ConcatMap(xs, EncIf4)) && next == tot + If4Len(xs[0])
    ensures IsAt(buf, tot, EncIf4(xs[0])) && IsAt(buf, next, ConcatMap(xs[1..], EncIf4))
    ensures tot + |ConcatMap(xs, EncIf4)| == next + |ConcatMap(xs[1..], EncIf4)|
  {
    ConcatMapFront(xs, EncIf4);
    ConcatMapSplitAt(buf, tot, xs, EncIf4, next);
  }

  lemma {:induction false} RunFront6(buf: seq<byte>, tot: nat, xs: seq<IfInfo6>, next: nat)
    requires xs != [] && IsAt(buf, tot, ConcatMap(xs, EncIf6)) && next == tot + If6Len(xs[0])
    ensures IsAt(buf, tot, EncIf6(xs[0])) && IsAt(buf, next, ConcatMap(xs[1..], EncIf6))
    ensures tot + |ConcatMap(xs, EncIf6)| == next + |ConcatMap(xs[1..], EncIf6)|
  {
    ConcatMapFront(xs, EncIf6);
    ConcatMapSplitAt(buf, tot, xs, EncIf6, next);
  }

  /** The first pass steps over a run of written IPv4 entries, counting each. */
  lemma {:induction false} CountRun4(buf: seq<byte>, tot: nat, xs: seq<IfInfo4>, n4: nat, n6: nat, end: nat, n4': nat)
    requires IsAt(buf, tot, ConcatMap(xs, EncIf4)) && Ifs4Ok(xs) && end == tot + |ConcatMap(xs, EncIf4)|
    requires n4' == n4 + |xs|
    ensures tot <= end <= |buf| && IfCount(buf, tot, n4, n6) == IfCount(buf, end, n4', n6)
    decreases |xs|
  {
    IsAtBound(buf, tot, ConcatMap(xs, EncIf4));
    if xs != [] {
      var next := tot + If4Len(xs[0]);
      RunFront4(buf, tot, xs, next);
      CountStep4(buf, tot, xs[0], n4, n6, next);
      CountRun4(buf, next, xs[1..], n4 + 1, n6, end, n4');
    }
  }

  /** The second pass steps over a run of written IPv4 entries, collecting them in order. */
  lemma {:induction false} FillRun4(buf: seq<byte>, tot: nat, xs: seq<IfInfo4>, v4: seq<IfInfo4>,
                                    v6: seq<IfInfo6>, end: nat, v4': seq<IfInfo4>)
    requires IsAt(buf, tot, ConcatMap(xs, EncIf4)) && Ifs4Ok(xs) && end == tot + |ConcatMap(xs, EncIf4)|
    requires v4' == v4 + xs
    ensures tot <= end <= |buf| && IfFill(buf, tot, v4, v6) == IfFill(buf, end, v4', v6)
    decreases |xs|
  {
    IsAtBound(buf, tot, ConcatMap(xs, EncIf4));
    if xs == [] {
      assert v4' == v4;
    } else {
      var next := tot + If4Len(xs[0]);
      RunFront4(buf, tot, xs, next);
      FillStep4(buf, tot, xs[0], v4, v6, next);
      assert v4 + [xs[0]] + xs[1..] == v4 + xs;
      FillRun4(buf, next, xs[1..], v4 + [xs[0]], v6, end, v4');
    }
  }

  lemma {:induction false} CountRun6(buf: seq<byte>, tot: nat, xs: seq<IfInfo6>, n4: nat, n6: nat, end: nat, n6': nat)
    requires IsAt(buf, tot, ConcatMap(xs, EncIf6)) && Ifs6Ok(xs) && end == tot + |ConcatMap(xs, EncIf6)|
    requires n6' == n6 + |xs|
    ensures tot <= end <= |buf| && IfCount(buf, tot, n4, n6) == IfCount(buf, end, n4, n6')
    decreases |xs|
  {
    IsAtBound(buf, tot, ConcatMap(xs, EncIf6));
    if xs != [] {
      var next := tot + If6Len(xs[0]);
      RunFront6(buf, tot, xs, next);
      CountStep6(buf, tot, xs[0], n4, n6, next);
      CountRun6(buf, next, xs[1..], n4, n6 + 1, end, n6');
    }
  }

  lemma {:induction false} FillRun6(buf: seq<byte>, tot: nat, xs: seq<IfInfo6>, v4: seq<IfInfo4>,
                                    v6: seq<IfInfo6>, end: nat, v6': seq<IfInfo6>)
    requires IsAt(buf, tot, ConcatMap(xs, EncIf6)) && Ifs6Ok(xs) && end == tot + |ConcatMap(xs, EncIf6)|
    requires v6' == v6 + xs
    ensures tot <= end <= |buf| && IfFill(buf, tot, v4, v6) == IfFill(buf, end, v4, v6')
    decreases |xs|
  {
    IsAtBound(buf, tot, ConcatMap(xs, EncIf6));
    if xs == [] {
      assert v6' == v6;
    } else {
      var next := tot + If6Len(xs[0]);
      RunFront6(buf, tot, xs, next);
      FillStep6(buf, tot, xs[0], v4, v6, next);
      assert v6 + [xs[0]] + xs[1..] == v6 + xs;
      FillRun6(buf, next, xs[1..], v4, v6 + [xs[0]], end, v6');
    }
  }

  /** The entry checks of a valid address list, one entry at a time. */
  lemma {:induction false} Ifs4OkOf(xs: seq<IfInfo4>)
    requires forall e :: e in xs ==> e.ifType == SCAP_FD_IPV4_SOCK && |e.name| < SCAP_MAX_PATH_SIZE
    ensures Ifs4Ok(xs)
    decreases |xs|
  {
    if xs != [] {
      assert forall e :: e in xs[1..] ==> e in xs;
      Ifs4OkOf(xs[1..]);
    }
  }

  lemma {:induction false} Ifs6OkOf(xs: seq<IfInfo6>)
    requires forall e :: e in xs ==> e.ifType == SCAP_FD_IPV6_SOCK && |e.name| < SCAP_MAX_PATH_SIZE
    ensures Ifs6Ok(xs)
    decreases |xs|
  {
    if xs != [] {
      assert forall e :: e in xs[1..] ==> e in xs;
      Ifs6OkOf(xs[1..]);
    }
  }

  /** The first pass over a buffer that starts with written IPv4 and then IPv6 entries
      and has fewer than four bytes after them counts exactly those entries. */
  lemma {:induction false} CountPasses(buf: seq<byte>, v4: seq<IfInfo4>, v6: seq<IfInfo6>, mid: nat, end: nat)
    requires IsAt(buf, 0, ConcatMap(v4, EncIf4)) && IsAt(buf, mid, ConcatMap(v6, EncIf6)) && Ifs4Ok(v4) && Ifs6Ok(v6)
    requires mid == |ConcatMap(v4, EncIf4)| && end == mid + |ConcatMap(v6, EncIf6)| && |buf| < end + 4
    ensures IfCount(buf, 0, 0, 0) == Ok((|v4|, |v6|))
  {
    CountRun4(buf, 0, v4, 0, 0, mid, |v4|);
    CountRun6(buf, mid, v6, |v4|, 0, end, |v6|);
  }

  /** The second pass over such a buffer collects those entries, in order, and stops
      where they end. */
  lemma {:induction false} FillPasses(buf: seq<byte>, v4: seq<IfInfo4>, v6: seq<IfInfo6>, mid: nat, end: nat)
    requires IsAt(buf, 0, ConcatMap(v4, EncIf4)) && IsAt(buf, mid, ConcatMap(v6, EncIf6)) && Ifs4Ok(v4) && Ifs6Ok(v6)
    requires mid == |ConcatMap(v4, EncIf4)| && end == mid + |ConcatMap(v6, EncIf6)| && |buf| < end + 4
    ensures IfFill(buf, 0, [], []) == Ok((v4, v6, end))
  {
    assert [] + v4 == v4 && [] + v6 == v6;
    FillRun4(buf, 0, v4, [], [], mid, v4);
    FillRun6(buf, mid, v6, v4, [], end, v6);
  }

  /** Once both passes succeed, the decoded list is what the second pass collected. */
  lemma {:induction false} IlDecodeOfPasses(buf: seq<byte>, v4: seq<IfInfo4>, v6: seq<IfInfo6>, end: u32)
    requires |buf| < U32_MODULUS && IfCount(buf, 0, 0, 0).Ok? && IfFill(buf, 0, [], []) == Ok((v4, v6, end))
    ensures IlDecode(buf) == Ok(AddrList(v4, v6, end))
  {
  }

  /** The two passes over the written IPv4 entries at 0 and the written IPv6
      entries right after them, followed by fewer than four bytes. */
  lemma {:induction false} IlDecodeOfRuns(buf: seq<byte>, al: AddrList, mid: nat)
    requires ValidAddrList(al) && IsAt(buf, 0, ConcatMap(al.v4, EncIf4)) && IsAt(buf, mid, ConcatMap(al.v6, EncIf6))
    requires mid == |ConcatMap(al.v4, EncIf4)| && mid + |ConcatMap(al.v6, EncIf6)| == al.totlen
    requires |buf| < al.totlen + 4 && |buf| < U32_MODULUS
    ensures IfCount(buf, 0, 0, 0) == Ok((|al.v4|, |al.v6|))
    ensures IlDecode(buf) == Ok(al)
  {
    Ifs4OkOf(al.v4);
    Ifs6OkOf(al.v6);
    CountPasses(buf, al.v4, al.v6, mid, al.totlen);
    FillPasses(buf, al.v4, al.v6, mid, al.totlen);
    IlDecodeOfPasses(buf, al.v4, al.v6, al.totlen);
  }

  /** The runs of entries in the writer's payload followed by its padding. */
  lemma PaddedRunsAt(al: AddrList, pad: nat)
    ensures IsAt(IlPayload(al) + Zeros(pad), 0, ConcatMap(al.v4, EncIf4))
    ensures IsAt(IlPayload(al) + Zeros(pad), |ConcatMap(al.v4, EncIf4)|, ConcatMap(al.v6, EncIf6))
  {
    IsAtPrefix(IlPayload(al) + Zeros(pad), Zeros(pad), IlPayload(al));
    IsAtSplit(IlPayload(al) + Zeros(pad), 0, ConcatMap(al.v4, EncIf4), ConcatMap(al.v6, EncIf6));
  }

  /** scap_read_iflist on what scap_write_iflist wrote, followed by the writer's zero
      padding: the first pass counts the list's own entries, and the second gives the
      list back. As written, the decoder gives back the same entries with totlen
      equal to block_length, the entries' length plus the padding. */
  lemma IlDecodeOfPayload(al: AddrList, pad: nat)
    requires ValidAddrList(al) && pad < 4 && |IlPayload(al)| + pad < U32_MODULUS
    ensures IfCount(IlPayload(al) + Zeros(pad), 0, 0, 0) == Ok((|al.v4|, |al.v6|))
    ensures IlDecode(IlPayload(al) + Zeros(pad)) == Ok(al)
    ensures IlDecodeAsWritten(IlPayload(al) + Zeros(pad), |IlPayload(al)| + pad) == Ok(al.(totlen := |IlPayload(al)| + pad))
  {
    PaddedRunsAt(al, pad);
    IlPayloadLength(al);
    IlDecodeOfRuns(IlPayload(al) + Zeros(pad), al, |ConcatMap(al.v4, EncIf4)|);
  }
}
