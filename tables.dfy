/** The in-memory tables a capture handle owns (process table, per-process fd
    tables, interface address lists, machine info) and the on-disk encoding of
    each record. */
module Tables {
  import opened Bytes
  import opened Seqs

  // Sizes from scap.h, which is not part of this model; the codec only needs the
  // fixed parts of the interface records and the machine info to be what the
  // writers and readers agree on.
  const SCAP_MAX_PATH_SIZE: nat := 1024
  /** sizeof(scap_ifinfo_ipv4) - SCAP_MAX_PATH_SIZE: type, name length, address, netmask, broadcast */
  const IPV4_ENTRY_FIXED: nat := 16
  /** sizeof(scap_ifinfo_ipv6) - SCAP_MAX_PATH_SIZE: type, name length, three 16-byte addresses */
  const IPV6_ENTRY_FIXED: nat := 52
  const SCAP_FD_IPV4_SOCK: u16 := 3
  const SCAP_FD_IPV6_SOCK: u16 := 4
  /** sizeof(scap_machine_info); a multiple of 4, which the machine-info writer relies on */
  const MACHINE_INFO_SIZE: nat := 180

  datatype Option<T> = None | Some(value: T)

  /** A char[SCAP_MAX_PATH_SIZE] buffer: the bytes before its terminator. */
  type PathBuf = s: seq<byte> | |s| <= SCAP_MAX_PATH_SIZE
  type Addr6 = s: seq<byte> | |s| == 16 witness Zeros(16)
  type MachineInfo = s: seq<byte> | |s| == MACHINE_INFO_SIZE witness Zeros(MACHINE_INFO_SIZE)
  /** The per-kind fd record, opaque to this codec. */
  type FdBody = s: seq<byte> | |s| < 0x1_0000

  datatype FdInfo = FdInfo(fd: u64, body: FdBody)

  datatype ThreadInfo = ThreadInfo(
    tid: u64, pid: u64, ppid: u64,
    comm: PathBuf, exe: PathBuf, args: PathBuf, cwd: PathBuf,
    fdlimit: u64, flags: u32, uid: u32, gid: u32,
    fdlist: seq<FdInfo>)

  datatype IfInfo4 = IfInfo4(ifType: u16, addr: u32, netmask: u32, bcast: u32, name: PathBuf)
  datatype IfInfo6 = IfInfo6(ifType: u16, addr: Addr6, netmask: Addr6, bcast: Addr6, name: PathBuf)

  /** scap_addrlist: the two per-family arrays and the byte length the writer declares. */
  datatype AddrList = AddrList(v4: seq<IfInfo4>, v6: seq<IfInfo6>, totlen: u32)

  /** strnlen(s, SCAP_MAX_PATH_SIZE) on the buffer s. */
  function CStrLen(s: PathBuf): (r: nat)
    ensures r <= |s|
    ensures forall i :: 0 <= i < r ==> s[i] != 0
    ensures r < |s| ==> s[r] == 0
  {
    if s == [] then 0 else if s[0] == 0 then 0 else 1 + CStrLen(s[1..])
  }

  /** The C string held by a buffer. */
  function CStr(s: PathBuf): (r: PathBuf)
    ensures |r| == CStrLen(s) && r <= s
  {
    s[..CStrLen(s)]
  }

  predicate NulFree(s: seq<byte>)
  {
    forall i :: 0 <= i < |s| ==> s[i] != 0
  }

  lemma CStrOfNulFree(s: PathBuf)
    requires NulFree(s)
    ensures CStr(s) == s
  {
  }

  /** u16 length followed by the bytes, with no terminator. */
  function EncStr(s: PathBuf): seq<byte>
  {
    EncU16(|s|) + s
  }

  /** One process-list entry, fields in the order scap_write_proclist emits them. */
  function EncProc(t: ThreadInfo): seq<byte>
  {
    ProcIds(t) + ProcStrings(t) + ProcLimits(t)
  }

  function ProcIds(t: ThreadInfo): seq<byte>
  {
    EncU64(t.tid) + EncU64(t.pid) + EncU64(t.ppid)
  }

  function ProcStrings(t: ThreadInfo): seq<byte>
  {
    EncStr(CStr(t.comm)) + EncStr(CStr(t.exe)) + EncStr(t.args) + EncStr(CStr(t.cwd))
  }

  function ProcLimits(t: ThreadInfo): seq<byte>
  {
    EncU64(t.fdlimit) + EncU32(t.flags) + EncU32(t.uid) + EncU32(t.gid)
  }

  /** The length scap_write_proclist's first pass adds up for one process. */
  function ProcLen(t: ThreadInfo): nat
  {
    8 + 8 + 8
    + 2 + CStrLen(t.comm) + 2 + CStrLen(t.exe) + 2 + |t.args| + 2 + CStrLen(t.cwd)
    + 8 + 4 + 4 + 4
  }

  lemma ProcLenIsEncodedLength(t: ThreadInfo)
    ensures |EncProc(t)| == ProcLen(t)
  {
  }

  /** The fd-record codec's on-disk form: fd number, record length, record bytes. */
  function EncFd(f: FdInfo): seq<byte>
  {
    EncU64(f.fd) + EncU16(|f.body|) + f.body
  }

  /** scap_fd_info_len */
  function FdInfoLen(f: FdInfo): nat
  {
    8 + 2 + |f.body|
  }

  /** The first scap_ifinfo_ipv4 bytes up to the end of the name: what the writer emits. */
  function EncIf4(e: IfInfo4): seq<byte>
  {
    EncU16(e.ifType) + EncU16(|e.name|) + EncU32(e.addr) + EncU32(e.netmask) + EncU32(e.bcast) + e.name
  }

  function EncIf6(e: IfInfo6): seq<byte>
  {
    EncU16(e.ifType) + EncU16(|e.name|) + e.addr + e.netmask + e.bcast + e.name
  }

  /** sizeof(scap_ifinfo_ipv4) + ifnamelen - SCAP_MAX_PATH_SIZE */
  function If4Len(e: IfInfo4): nat
  {
    IPV4_ENTRY_FIXED + |e.name|
  }

  function If6Len(e: IfInfo6): nat
  {
    IPV6_ENTRY_FIXED + |e.name|
  }

  function PlPayload(procs: seq<ThreadInfo>): seq<byte>
  {
    ConcatMap(procs, EncProc)
  }

  function FdsPayload(fds: seq<FdInfo>): seq<byte>
  {
    ConcatMap(fds, EncFd)
  }

  function IlPayload(al: AddrList): seq<byte>
  {
    ConcatMap(al.v4, EncIf4) + ConcatMap(al.v6, EncIf6)
  }

  /** The address list keeps the length of its own entries, as the live interface
      scan computes it, and every entry is tagged with its family. */
  predicate ValidAddrList(al: AddrList)
  {
    && al.totlen == SumLen(al.v4, If4Len) + SumLen(al.v6, If6Len)
    && (forall e :: e in al.v4 ==> e.ifType == SCAP_FD_IPV4_SOCK && |e.name| < SCAP_MAX_PATH_SIZE)
    && (forall e :: e in al.v6 ==> e.ifType == SCAP_FD_IPV6_SOCK && |e.name| < SCAP_MAX_PATH_SIZE)
  }

  lemma IlPayloadLength(al: AddrList)
    ensures |IlPayload(al)| == SumLen(al.v4, If4Len) + SumLen(al.v6, If6Len)
  {
    ConcatMapLength(al.v4, EncIf4, If4Len);
    ConcatMapLength(al.v6, EncIf6, If6Len);
  }

  lemma {:induction false} FdsPayloadLength(fds: seq<FdInfo>)
    ensures |FdsPayload(fds)| == SumLen(fds, FdInfoLen)
  {
    ConcatMapLength(fds, EncFd, FdInfoLen);
  }

  lemma {:induction false} PlPayloadLength(procs: seq<ThreadInfo>)
    ensures |PlPayload(procs)| == SumLen(procs, ProcLen)
  {
    forall t | t in procs ensures |EncProc(t)| == ProcLen(t) {
      ProcLenIsEncodedLength(t);
    }
    ConcatMapLength(procs, EncProc, ProcLen);
  }

  /** The lookup HASH_FIND_INT64 stands for: an entry with that tid, the first
      one in table order. uthash walks a bucket chain whose order is its own, so
      among repeated tids this choice is the model's; for distinct tids there is
      only one entry to find (FindTidUnique). */
  function FindTid(procs: seq<ThreadInfo>, tid: u64): (r: Option<nat>)
    ensures r.Some? ==> r.value < |procs| && procs[r.value].tid == tid
  {
    if procs == [] then None
    else if procs[0].tid == tid then Some(0)
    else match FindTid(procs[1..], tid)
      case None => None
      case Some(i) => Some(i + 1)
  }

  /** The lookup finds the first entry with the tid, and finds nothing exactly when
      no entry has it. */
  lemma {:induction false} FindTidIsFirst(procs: seq<ThreadInfo>, tid: u64)
    ensures FindTid(procs, tid).Some? ==> forall j :: 0 <= j < FindTid(procs, tid).value ==> procs[j].tid != tid
    ensures FindTid(procs, tid).None? <==> forall j :: 0 <= j < |procs| ==> procs[j].tid != tid
  {
    if procs != [] && procs[0].tid != tid {
      FindTidIsFirst(procs[1..], tid);
      forall j | 0 < j < |procs| ensures procs[j] == procs[1..][j - 1] { }
    }
  }

  predicate UniqueTids(procs: seq<ThreadInfo>)
  {
    forall i, j :: 0 <= i < j < |procs| ==> procs[i].tid != procs[j].tid
  }

  /** With distinct tids the lookup finds the one entry that has the tid, whatever
      order a hash table would search in. */
  lemma {:induction false} FindTidUnique(procs: seq<ThreadInfo>, j: nat)
    requires UniqueTids(procs) && j < |procs|
    ensures FindTid(procs, procs[j].tid) == Some(j)
  {
    FindTidIsFirst(procs, procs[j].tid);
  }

  /** The process table as the map it stands for, when tids are unique. */
  function ProcMap(procs: seq<ThreadInfo>): (m: map<u64, ThreadInfo>)
    requires UniqueTids(procs)
    ensures forall i :: 0 <= i < |procs| ==> procs[i].tid in m && m[procs[i].tid] == procs[i]
  {
    map i | 0 <= i < |procs| :: procs[i].tid := procs[i]
  }

  /** A capture handle (scap_t): the tables the writers drain and the readers fill. */
  class Scap {
    var proclist: seq<ThreadInfo>
    var addrlist: Option<AddrList>
    var machineInfo: MachineInfo

    constructor ()
      ensures proclist == [] && addrlist == None && machineInfo == Zeros(MACHINE_INFO_SIZE)
    {
      proclist := [];
      addrlist := None;
      machineInfo := Zeros(MACHINE_INFO_SIZE);
    }
  }
}
