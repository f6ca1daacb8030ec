# A verified model of the sysdig capture-file codec and two configuration helpers

This project models three pieces of the agent in Dafny and proves properties about them.

**The capture-file ("savefile") codec of libscap.** A capture file is a sequence of blocks. Each block has four parts:
- a `u32` block type;
- a `u32` total length;
- a payload padded with zeros to a multiple of 4;
- a `u32` trailer repeating the total length.

The writer emits the section header block, the machine-info block, the interface list, the process list, one fd-list block per thread, and then one event block per captured event. The reader does three things:
- it checks the section header;
- it reads metadata blocks by type, checking each trailer, until the first event block, and leaves the cursor on that block's header;
- it streams events one block at a time.

The write path is modelled as methods over a `Sink`, an output stream with a capacity, where a short write truncates. The read path is modelled as methods over a `Source`, the file's bytes plus a cursor, and over the capture handle `Scap`, whose process table, interface list and machine-info block the readers update in place. Every reader is proved equal to a spec function over the file contents. The main round-trip lemmas prove that each block a writer emits reads back through one turn of the metadata loop to the tables it came from. They also prove that an event block reads back as its cpu id and event.

**The metric-filter helpers of `metric_limits`.** These are:
- the `(pattern, included)` rule;
- the test that the first rule includes everything;
- the reduction of a list whose first rule excludes everything;
- the text a rule is logged as.

**Three rules of `dragent_configuration`:**
- `string_to_priority`, a case-insensitive prefix classifier for log levels;
- `sanitize_limits`, which cleans a filter list using the two helpers above;
- the empty and absolute cases of `normalize_path`.

Files:
- `bytes.dfy`: bytes, fixed-width little-endian integers, 32-bit wrap-around, byte layouts.
- `block.dfy`: block length normalisation, padding, the block envelope.
- `tables.dfy`: the process, fd and interface tables and their on-disk encoding; the capture handle.
- `streams.dfy`: errors, the `Sink` and `Source` classes and the primitive readers.
- `savefile_write.dfy`: the writers.
- `savefile_read.dfy`: decoders as spec functions, and readers as methods.
- `read_checks.dfy`: the reader's error cases, and the two findings.
- `roundtrip.dfy`: decoding what the encoders produce, entry by entry.
- `file_roundtrip.dfy`: reading back whole blocks as the writers emit them.
- `metric_limits.dfy`, `configuration.dfy`: the filter helpers and the configuration rules.

## Model

| member | source | states |
|---|---|---|
| Block.NormalizeBlockLen | userspace/libscap/scap_savefile.c:17-20 | the result is a multiple of 4; for n ≤ 2^32−4 it is the least such value ≥ n (n ≤ r < n+4); above that the u32 sum wraps and the result is 0 |
| Block.PaddingLen | userspace/libscap/scap_savefile.c:22-25 | the padding count is below 4 and brings n to normalize(n), modulo 2^32 and exactly when n ≤ 2^32−4 |
| Block.TotalLengthIsPaddedPayload | userspace/libscap/scap_savefile.c:55-91 | normalize(8 + d + 4) is 8 + d + the padding of d + 4, so the header's total length counts exactly the zeros the padding writer adds |
| Block.FramedLayout | userspace/libscap/scap_savefile.c:37-105 | a framed block is exactly block_total_length bytes, a multiple of 4; type, total length, payload, zero padding of normalize(d)−d bytes, and a trailer equal to the total length, each at its offset |
| Block.FramedIsSelfFramed | userspace/libscap/scap_savefile.c:37-105 | every framed block is self-describing: at least 12 bytes, a multiple of 4, with both length fields equal to its byte count |
| Block.FramedAsWritten | userspace/libscap/scap_savefile.c:55-98 | the total length computed once and written in header and trailer is the block image's length field |
| Bytes.U16RoundTrip | userspace/libscap/scap_savefile.c:559-560 | decoding an encoded u16 gives it back |
| Bytes.U32RoundTrip | userspace/libscap/scap_savefile.c:1143-1146 | decoding an encoded u32 gives it back |
| Bytes.U64RoundTrip | userspace/libscap/scap_savefile.c:535-536 | decoding an encoded u64 gives it back |
| Bytes.EncU32Injective | userspace/libscap/scap_savefile.c:1146 | distinct u32 values have distinct encodings, so a trailer compare on bytes is a compare on values |
| Bytes.Wrap32 | userspace/libscap/scap_savefile.c:41-51 | reducing modulo 2^32 keeps a value that already fits in u32 unchanged |
| Bytes.AsInt32 | userspace/libscap/scap_savefile.c:530 | the (int32_t) cast gives a value in the signed 32-bit range that is congruent to its argument modulo 2^32 |
| Seqs.Wrap32Add | userspace/libscap/scap_savefile.c:48-51 | adding to a length that was already wrapped to u32 gives the same u32 as wrapping the exact sum |
| Tables.ProcLenIsEncodedLength | userspace/libscap/scap_savefile.c:146-200 | the length the first pass of scap_write_proclist adds for an entry is the number of bytes the second pass writes for it |
| Tables.CStrOfNulFree | userspace/libscap/scap_savefile.c:180-183 | strnlen of a NUL-free name takes the whole name |
| Tables.CStrLen | userspace/libscap/scap_savefile.c:180-183 | strnlen within the buffer: no NUL before the length, and a NUL at it unless the buffer has no terminator |
| Tables.FindTid | userspace/libscap/scap_savefile.c:988-994 | a hit is an index into the table whose entry has the asked tid |
| Tables.FindTidUnique | userspace/libscap/scap_savefile.c:988 | in a table with distinct tids the lookup finds the one entry with the tid, so the choice among duplicates does not arise |
| Tables.FindTidIsFirst | userspace/libscap/scap_savefile.c:988-994 | there is no hit exactly when no entry has the tid, the case the NULL test rejects; a hit is the first entry with the tid, which among repeated tids is the model's choice |
| Tables.ProcMap | userspace/libscap/scap_savefile.c:988 | for distinct tids the table read as a map takes every tid to its entry |
| Streams.Sink.Write | userspace/libscap/scap_savefile.c:251-253 | fwrite succeeds exactly when all the bytes fit; the sink then holds the old contents plus as many new bytes as fit |
| Streams.Source.Read | userspace/libscap/scap_savefile.c:1173 | fread returns the bytes that exist from the cursor, at most n, and advances past them |
| Streams.Source.Seek | userspace/libscap/scap_savefile.c:1129-1130 | a relative seek succeeds exactly when the target is not before the start of the file, and moves the cursor only then |
| Streams.Source.ReadExact | userspace/libscap/scap_savefile.c:570-571 | a read of n bytes followed by CHECK_READ_SIZE agrees with ReadBytes: the bytes and the new cursor, or ReadError |
| Streams.Source.GetU16 | userspace/libscap/scap_savefile.c:559-560 | agrees with ReadU16 at the cursor |
| Streams.Source.GetU32 | userspace/libscap/scap_savefile.c:1143-1144 | agrees with ReadU32 at the cursor |
| Streams.Source.GetU64 | userspace/libscap/scap_savefile.c:535-536 | agrees with ReadU64 at the cursor |
| Streams.ReadBytes | userspace/libscap/scap_savefile.c:570-571 | succeeds exactly when n bytes remain (or n is 0), then returns those bytes and the position after them; otherwise ReadError |
| Streams.ReadU32At | userspace/libscap/scap_savefile.c:1143-1144 | a u32 written at a position reads back as itself, 4 bytes further on |
| SaveWrite.WriteRecords | userspace/libscap/scap_savefile.c:177-200 | writing the records one by one, stopping at the first short write, leaves the sink as one write of their concatenation would, and succeeds exactly when that fits |
| SaveWrite.FdListLength | userspace/libscap/scap_savefile.c:39-51 | the first pass of scap_write_proc_fds computes 8 plus the sum of the fd record lengths, in u32 |
| SaveWrite.WriteProcFds | userspace/libscap/scap_savefile.c:37-105 | the sink receives exactly the FDL block of the thread, a block holding only the tid when it has no fds, and the call succeeds exactly when the block fits |
| SaveWrite.WriteFdList | userspace/libscap/scap_savefile.c:110-126 | the sink receives one FDL block per thread, in table order, stopping at the first failure |
| SaveWrite.ProcListLength | userspace/libscap/scap_savefile.c:133-160 | the first pass of scap_write_proclist computes the sum of the entry lengths, in u32 |
| SaveWrite.WriteProcList | userspace/libscap/scap_savefile.c:131-225 | the sink receives exactly the PL block of the table (header, entries in table order, padding, trailer), and the call succeeds exactly when it fits |
| SaveWrite.WriteMachineInfo | userspace/libscap/scap_savefile.c:238-260 | the sink receives the MI block: header, the machine-info bytes, trailer |
| SaveWrite.WriteIfList | userspace/libscap/scap_savefile.c:274-355 | with no interface list nothing is written and the call fails; otherwise the sink receives the IL block (IPv4 entries, IPv6 entries, padding of totlen, trailer) |
| SaveWrite.SetupDump | userspace/libscap/scap_savefile.c:361-425 | the sink receives SHB, MI, IL, PL and the FDL blocks in that order, stopping at the first failure; the call fails when there is no interface list or the image does not fit |
| SaveWrite.Dump | userspace/libscap/scap_savefile.c:464-488 | a non-empty event: the sink receives the event block (header, cpu id, event bytes, padding, trailer) and the call succeeds exactly when it fits; an empty event: the sink receives only the header and cpu id, and the call fails |
| SaveWrite.EmptyEventTruncated | userspace/libscap/scap_savefile.c:473-478 | what an empty event leaves in the file is the first 10 bytes of its 16-byte block: a header declaring 16 bytes and the cpu id, with no trailer |
| SaveWrite.ShbBlockLayout | userspace/libscap/scap_savefile.c:367-383 | the section header block is 28 bytes: SHB type, length 28 in header and trailer, then the byte-order magic |
| SaveWrite.MiBlockIsFramed | userspace/libscap/scap_savefile.c:238-260 | the MI block is the framed block of the machine info and is self-framed |
| SaveWrite.FdlBlockSelfFramed | userspace/libscap/scap_savefile.c:37-105 | the FDL block declares 8 + the fd records' length and is self-framed |
| SaveWrite.PlBlockSelfFramed | userspace/libscap/scap_savefile.c:131-225 | the PL block declares exactly its payload's length and is self-framed |
| SaveWrite.IlBlockSelfFramed | userspace/libscap/scap_savefile.c:274-355 | an IL block whose totlen is its entries' length is self-framed |
| SaveWrite.EvBlockSelfFramed | userspace/libscap/scap_savefile.c:464-488 | every event block is self-framed |
| SaveRead.ReadStr | userspace/libscap/scap_savefile.c:559-576 | a decoded string is shorter than SCAP_MAX_PATH_SIZE and ends 2 + its length bytes further on |
| SaveRead.ReadStrFrom | userspace/libscap/scap_savefile.c:559-576 | the cursor-based string read returns what ReadStr decodes and leaves the cursor where ReadStr ends, or fails with ReadStr's error |
| SaveRead.ReadProcEntry | userspace/libscap/scap_savefile.c:535-675 | a decoded entry takes at least the fixed fields' bytes and at most those plus four strings of 1023 bytes, lies in the file, and has an empty fd table |
| SaveRead.ReadProcEntryFrom | userspace/libscap/scap_savefile.c:535-675 | the cursor-based loop body returns the entry ReadProcEntry decodes and leaves the cursor where it ends, or fails with its error |
| SaveRead.ReadFdRecord | userspace/libscap/scap_savefile.c:998-1002 | a decoded fd record takes exactly its encoded length |
| SaveRead.ReadFdRecordFrom | userspace/libscap/scap_savefile.c:998-1002 | the cursor-based fd record read returns what ReadFdRecord decodes and leaves the cursor where it ends, or fails with its error |
| SaveRead.Entries | userspace/libscap/scap_savefile.c:530-711 | the entry loop never moves backwards, and the table it returns extends the one it is given |
| SaveRead.EntriesAligned | userspace/libscap/scap_savefile.c:702-711 | with records of bounded size, a block the entry loop accepts has totreadsize at most block_length and ends exactly block_length - totreadsize bytes on |
| SaveRead.ProcEntriesAligned | userspace/libscap/scap_savefile.c:702-711 | a process-list block that reads back ends exactly block_length bytes after its body starts |
| SaveRead.EntriesStep | userspace/libscap/scap_savefile.c:530-675 | while ≥4 bytes are left, one decoded record is appended and totreadsize grows by its size |
| SaveRead.EntriesFailed | userspace/libscap/scap_savefile.c:535-536 | while ≥4 bytes are left, a record that fails to decode fails the loop with its error |
| SaveRead.ReadEntriesPadding | userspace/libscap/scap_savefile.c:705-711 | with 0 to 3 bytes left, the loop ends by reading them as padding, and fails on a short read; a negative count, undefined behaviour in the source, is reported as NegativePadding |
| SaveRead.ReadProcStep | userspace/libscap/scap_savefile.c:530-700 | one entry is read and appended to the handle's process table, and the rest of the loop is what is left of the block |
| SaveRead.ReadProcTurn | userspace/libscap/scap_savefile.c:530-711 | one turn of the loop: an entry appended, or the padding read and the loop done, or the error |
| SaveRead.ReadProcList | userspace/libscap/scap_savefile.c:516-712 | scap_read_proclist leaves the handle's process table and the cursor as ProcEntries describes, or fails with its error; nothing else in the handle changes |
| SaveRead.ReadFdBlock | userspace/libscap/scap_savefile.c:965-1039 | a decoded fd-list block keeps the number of processes and never moves backwards |
| SaveRead.FdBlockAligned | userspace/libscap/scap_savefile.c:1029-1038 | an fd-list block that reads back ends exactly block_length bytes after its body starts: tid, records and padding fill it |
| SaveRead.FdBlockOfTid | userspace/libscap/scap_savefile.c:981-1027 | the block's fds go to the process the leading tid names, appended to its fd table |
| SaveRead.ReadFdTurn | userspace/libscap/scap_savefile.c:996-1038 | one record is appended to that process's fd table and no other entry changes, or the padding ends the loop, or the error |
| SaveRead.ReadFdList | userspace/libscap/scap_savefile.c:965-1039 | scap_read_fdlist leaves the table and the cursor as ReadFdBlock describes, or fails with its error |
| SaveRead.IfCount | userspace/libscap/scap_savefile.c:758-812 | the first pass only counts upward |
| SaveRead.IfFill | userspace/libscap/scap_savefile.c:867-942 | the second pass stops under 4 bytes from the end of the buffer, never past it |
| SaveRead.CopyIf4 | userspace/libscap/scap_savefile.c:891-910 | an IPv4 entry the first pass accepted is copied into the next slot of the v4 array, earlier slots kept; the offset moves by the entry size and both passes continue from there as before |
| SaveRead.CopyIf6 | userspace/libscap/scap_savefile.c:911-930 | a non-IPv4 entry the first pass accepted is IPv6; it is copied into the next slot of the v6 array, earlier slots kept; the offset moves by the entry size and both passes continue from there as before |
| SaveRead.IlDecode | userspace/libscap/scap_savefile.c:755-942 | the corrected decoder of the first finding: a decoded list's totlen is the bytes the entries took, and only the under-4 padding bytes follow them |
| SaveRead.ReadIlBlock | userspace/libscap/scap_savefile.c:745-753 | the whole block_length is read in one go, so the cursor ends after it; the list is decoded with the corrected totlen |
| SaveRead.CountInterfaces | userspace/libscap/scap_savefile.c:758-812 | the first-pass loop computes IfCount: counts per family, or the error for an unknown type or an entry that runs past the buffer |
| SaveRead.FillInterfaces | userspace/libscap/scap_savefile.c:817-942 | the arrays sized by the first pass are filled by the second pass; the result is exactly IlDecode of the buffer, with the corrected totlen |
| SaveRead.ReadIfList | userspace/libscap/scap_savefile.c:717-960 | scap_read_iflist replaces the interface list with the decoded block (corrected totlen), or leaves none on error; the rest of the handle is unchanged |
| SaveRead.ReadMachineInfo | userspace/libscap/scap_savefile.c:499-511 | the machine-info bytes are read whole into the handle, or the read fails |
| SaveRead.ReadBlockBody | userspace/libscap/scap_savefile.c:1084-1137 | each block body is read by type from the header onwards and never moves backwards, with the corrected interface decoder and the corrected skip |
| SaveRead.ReadBlockBodyFrom | userspace/libscap/scap_savefile.c:1084-1137 | the switch on the block type leaves the handle's tables and the cursor as ReadBlockBody describes, or fails with its error |
| SaveRead.Skip | userspace/libscap/scap_savefile.c:1124-1137 | the corrected half of the second finding: an unknown block is skipped forward |
| SaveRead.ReadMetadataBlock | userspace/libscap/scap_savefile.c:1079-1152 | one turn of the loop: at an event block the cursor is back on its header and nothing changes; otherwise the handle's tables and the cursor are as MetadataTurn describes, or the error |
| SaveRead.MetadataTurn | userspace/libscap/scap_savefile.c:1079-1153 | a turn that goes on moves strictly forward and stays in the file (with both corrections; ReadChecks.TurnAsWritten relates it to the loop as written) |
| SaveRead.ReadInit | userspace/libscap/scap_savefile.c:1044-1156 | scap_read_init, with both corrections, leaves the handle's tables and the cursor as ReadInitSpec describes, or fails with its error |
| SaveRead.NextEvent | userspace/libscap/scap_savefile.c:1173-1209 | end of file is reported exactly when no byte is left; an event takes at least header, event header and trailer, and lies in the file |
| SaveRead.NextOffline | userspace/libscap/scap_savefile.c:1161-1211 | scap_next_offline returns what NextEvent describes and moves the cursor past it |
| ReadChecks.ReadInitChecks | userspace/libscap/scap_savefile.c:1056-1079 | a short section header is a read error, a wrong block type and a wrong magic are rejected in that order, and otherwise the metadata loop starts 28 bytes on |
| ReadChecks.TrailerChecked | userspace/libscap/scap_savefile.c:1143-1152 | after a metadata block's body, the turn goes on exactly when the trailer equals the header's total length, and fails with WrongTrailer otherwise |
| ReadChecks.WrongTrailerFails | userspace/libscap/scap_savefile.c:1143-1152 | one wrong trailer fails the whole metadata read |
| ReadChecks.UnknownBlockSkipped | userspace/libscap/scap_savefile.c:1124-1137 | as written, an unknown block's body is skipped to total − 4 bytes past its header, backwards for a total below 12, and fails only before the start of the file; the corrected skip rejects a total below 12; both leave the tables as they were |
| ReadChecks.UnknownBlockTurn | userspace/libscap/scap_savefile.c:1124-1152 | a well-framed unknown block leaves the tables unchanged and the loop goes on right after it (forward compatibility) |
| ReadChecks.LongStringRejected | userspace/libscap/scap_savefile.c:559-566 | a string length of SCAP_MAX_PATH_SIZE or more is rejected |
| ReadChecks.MissingTidRejected | userspace/libscap/scap_savefile.c:988-994 | an fd-list block whose tid is not in the table is rejected |
| ReadChecks.UnknownInterfaceRejected | userspace/libscap/scap_savefile.c:805-811 | an interface entry of neither family is rejected, at any offset the entries before it lead to, by both decoders |
| ReadChecks.OverlongInterfaceRejected | userspace/libscap/scap_savefile.c:773-782 | an interface entry longer than the bytes left is rejected as a corrupt list, at any offset the entries before it lead to, by both decoders |
| ReadChecks.LongInterfaceNameRejected | userspace/libscap/scap_savefile.c:884-889 | an interface name length of SCAP_MAX_PATH_SIZE or more is rejected as a corrupt list in the second pass, at any offset the entries before it lead to, by both decoders |
| ReadChecks.CountsMatchFill | userspace/libscap/scap_savefile.c:861-933 | when both passes succeed, the counts of the first are the numbers of entries the second fills, per family, in file order |
| ReadChecks.DecodedCounts | userspace/libscap/scap_savefile.c:861-862 | n_v4_addrs and n_v6_addrs are the lengths of the decoded lists |
| ReadChecks.NextEventChecks | userspace/libscap/scap_savefile.c:1189-1206 | a block other than an event is rejected; an event block shorter than header, event header and trailer is rejected; otherwise the read succeeds exactly when the block is in the file |
| ReadChecks.PartialHeaderRejected | userspace/libscap/scap_savefile.c:1173-1187 | one to seven header bytes at the end of the file are a read error, not the end of the file |
| ReadChecks.IlDecodeAsWrittenKeepsPadding | userspace/libscap/scap_savefile.c:829 | the decoder as written sets totlen to block_length, counting the padding, so the list it builds no longer describes its own entries; dumped again, it becomes a block pad bytes shorter than its header and trailer declare, which is not self-framed |
| ReadChecks.SkipAsWrittenRereadsHeader | userspace/libscap/scap_savefile.c:1128-1137 | at an unknown block with total length 0 after four zero bytes, the turn as written seeks 4 bytes before the header, reads a matching trailer there and ends back on the same header with the tables unchanged, so the loop repeats it for ever; the corrected turn rejects the block |
| ReadChecks.SkipMovesForward | userspace/libscap/scap_savefile.c:1124-1137 | the corrected skip succeeds exactly for a total of 12 or more, and lands on the trailer |
| ReadChecks.IfRunCount | userspace/libscap/scap_savefile.c:758-812 | the first pass walks over a run of accepted interface entries, counting them, to where the run ends |
| ReadChecks.IfRunFill | userspace/libscap/scap_savefile.c:867-942 | the second pass walks over a run of accepted interface entries, decoding them, to where the run ends |
| ReadChecks.IlBlockAsWritten | userspace/libscap/scap_savefile.c:745-829 | the interface block read as written is the corrected one with totlen replaced by block_length, and fails exactly when it fails |
| ReadChecks.BodyAsWritten | userspace/libscap/scap_savefile.c:1084-1137 | the switch as written agrees with the model's on every block but an interface list, whose totlen it sets to block_length, and an unknown block with a total below 12 |
| ReadChecks.TurnAsWritten | userspace/libscap/scap_savefile.c:1079-1152 | one turn of the loop as written is the model's turn on every block that is not an interface list and not an unknown block with a total below 12 |
| ReadChecks.IlTurnAsWritten | userspace/libscap/scap_savefile.c:1118-1152 | an interface block the model's turn reads as a list is read as written as the same list with totlen equal to block_length |
| RoundTrip.ReadProcEntryAt | userspace/libscap/scap_savefile.c:535-675 | an entry written by scap_write_proclist reads back with the same ids, strings, fd limit, flags, uid and gid, and the next position is right after it |
| RoundTrip.ReadFdRecordAt | userspace/libscap/scap_savefile.c:998-1002 | an fd record written reads back as itself |
| RoundTrip.ProcEntriesOfPayload | userspace/libscap/scap_savefile.c:530-711 | the entry loop over a written PL payload and its padding appends every entry, in order, and consumes exactly the block length |
| RoundTrip.FdEntriesOfPayload | userspace/libscap/scap_savefile.c:996-1038 | the record loop over a written fd payload and its padding appends every record, in order |
| RoundTrip.ReadFdBlockAt | userspace/libscap/scap_savefile.c:981-1038 | an FDL payload read back appends the thread's fds to the process the lookup finds for its tid |
| RoundTrip.IlDecodeOfPayload | userspace/libscap/scap_savefile.c:755-942 | a written interface list with its padding decodes to the same list, with the per-family counts of the first pass; as written, to the same entries with totlen equal to the entries' length plus the padding |
| FileRoundTrip.MiBlockTurn | userspace/libscap/scap_savefile.c:1084-1152 | a written MI block is read back in one turn into the machine-info slot, right after itself |
| FileRoundTrip.PlBlockTurn | userspace/libscap/scap_savefile.c:1092-1152 | a written PL block is read back in one turn, appending every process to the table, right after itself |
| FileRoundTrip.FdlBlockTurn | userspace/libscap/scap_savefile.c:1098-1152 | a written FDL block is read back in one turn, appending the thread's fds to its process, right after itself |
| FileRoundTrip.IlBlockTurn | userspace/libscap/scap_savefile.c:1118-1152 | a written IL block is read back in one turn as the same interface list, right after itself |
| FileRoundTrip.IlBlockTurnAsWritten | userspace/libscap/scap_savefile.c:829 | by the turn as written, a written IL block is read back as the same entries with totlen rounded up to a multiple of 4, right after itself |
| FileRoundTrip.IlBlockSpan | userspace/libscap/scap_savefile.c:294-295 | the bytes between a written IL block's header and trailer are totlen rounded up to a multiple of 4 |
| FileRoundTrip.ShbReadBack | userspace/libscap/scap_savefile.c:1056-1079 | the written section header is accepted and the metadata loop starts right after it |
| FileRoundTrip.EventStops | userspace/libscap/scap_savefile.c:1104-1117 | at an event block the metadata loop ends with the cursor on that block's header and the tables unchanged |
| FileRoundTrip.EventTurn | userspace/libscap/scap_savefile.c:1173-1209 | an event block in the file reads as its cpu id and the bytes after it, moving past the block |
| FileRoundTrip.EventReadBack | userspace/libscap/scap_savefile.c:1173-1209 | a written event block reads back as its cpu id and the event, followed by the padding and the trailer, and the cursor moves past the whole block |
| MetricLimits.DefaultFilter | userspace/libsanalyzer/metric_limits.h:31-50 | the default rule has an empty pattern and includes |
| MetricLimits.FirstIncludesAll | userspace/libsanalyzer/metric_limits.h:205-210 | true exactly when the list is non-empty and its first rule includes with pattern "" or "*" |
| MetricLimits.ExcludeAllOptimized | userspace/libsanalyzer/metric_limits.h:212-223 | a list of two or more rules starting with exclude "*" becomes exactly [("*", false)]; any other list is unchanged |
| MetricLimits.OptimizeExcludeAll | userspace/libsanalyzer/metric_limits.h:212-223 | the caller's list is replaced by its reduction |
| MetricLimits.ExcludeAllOptimizedKeepsFirst | userspace/libsanalyzer/metric_limits.h:212-223 | the reduction never lengthens the list, empties it only if it was empty, keeps its first rule, and keeps first_includes_all |
| MetricLimits.ExcludeAllOptimizedIsReduced | userspace/libsanalyzer/metric_limits.h:214-222 | after the reduction no list of two or more rules starts with exclude "*" |
| MetricLimits.ExcludeAllOptimizedIdempotent | userspace/libsanalyzer/metric_limits.h:212-223 | applying the reduction twice equals applying it once |
| MetricLimits.WrapFilter | userspace/libsanalyzer/metric_limits.h:183-188 | the text is "filter: ", then '+' or '-', then '[', then the pattern or a blank for an empty pattern, then ']' |
| MetricLimits.WrapFilterReadsBack | userspace/libsanalyzer/metric_limits.h:183-188 | the sign and the pattern can be read back from the text, with an empty pattern reading as a blank |
| MetricLimits.WrapFilterInjective | userspace/libsanalyzer/metric_limits.h:183-188 | two rules with non-empty patterns log alike only when they are the same rule |
| MetricLimits.WrapFilterBlank | userspace/libsanalyzer/metric_limits.h:186 | an empty pattern and a single blank log alike |
| Configuration.StringToPriority | userspace/dragent/src/configuration.cpp:313-359 | a level is between −1 and TRACE; a rejected string is non-empty and does not start with "none" |
| Configuration.FirstMatchIsFirst | userspace/dragent/src/configuration.cpp:315-351 | the keyword lookup finds a keyword exactly when one begins the string, and then the first one in table order |
| Configuration.StringToPriorityIsTableLookup | userspace/dragent/src/configuration.cpp:313-359 | the if-chain is the lookup over the table (emergency, alert, fatal, critical, error, warn, notice, info, debug, trace); with no match, "" and "none…" give −1 and anything else is rejected |
| Configuration.StringToPriorityRejects | userspace/dragent/src/configuration.cpp:352-358 | a string is rejected exactly when it is non-empty and begins with no keyword and not with "none" |
| Configuration.WarningIsWarn | userspace/dragent/src/configuration.cpp:335-338 | "WARNING" gives the warning level |
| Configuration.AlertingIsFatal | userspace/dragent/src/configuration.cpp:319-323 | "alerting" gives the fatal level |
| Configuration.NoneIsOff | userspace/dragent/src/configuration.cpp:352-355 | "None" and "" give −1 |
| Configuration.VerboseIsRejected | userspace/dragent/src/configuration.cpp:356-358 | "verbose" is rejected |
| Configuration.Sanitized | userspace/dragent/src/configuration.cpp:396-410 | the result has at most hardLimit rules; it is empty when the first rule includes everything, and otherwise it is the first min(hardLimit, n) rules of the reduced list, in order |
| Configuration.SanitizeLimits | userspace/dragent/src/configuration.cpp:396-410 | the caller's list is replaced by its sanitised form |
| Configuration.SanitizedFirstRule | userspace/dragent/src/configuration.cpp:396-410 | a sanitised list never starts with an include-everything rule, and when non-empty it starts with the original's first rule |
| Configuration.SanitizedIdempotent | userspace/dragent/src/configuration.cpp:396-410 | sanitising twice equals sanitising once |
| Configuration.NormalizePath | userspace/dragent/src/configuration.cpp:362-376 | an empty path gives "", and a path starting with '/' is returned unchanged |
| Configuration.NormalizePathFixesAbsolute | userspace/dragent/src/configuration.cpp:362-376 | normalising an empty or absolute result again changes nothing |

## Left out
- EntriesAligned, ProcEntriesAligned, FdBlockAligned: stated for block lengths below 2^31 minus one maximal record. Beyond that, the `(int32_t)totreadsize` cast can turn negative after a record, and the source then reads on past `block_length`; the model follows it there (`Left`), and no alignment is promised.

- I/O: `FILE*`, `fopen`, `fclose` and `stdout` (`scap_dump_open`, `scap_dump_close`) are not modelled. The writer is a `Sink` with a capacity, where a short write keeps the bytes that fit. The reader is a `Source`, the file's bytes plus a cursor. `fseek` past the end of the file succeeds, as in C, and leaves the following read to fail.
- Allocation failures (`malloc`, `HASH_ADD` status) and `scap_free_iflist` are not modelled: allocation always succeeds, and a replaced interface list is simply dropped.
- For `u16`, `u32` and `u64`, native byte order is modelled as little-endian.
- The values of the constants defined in headers that are not part of this model are chosen placeholders, pairwise distinct where that matters: the block type tags and version numbers (scap_savefile.h) and the sizes and socket tags that `SCAP_MAX_PATH_SIZE` is stated with (scap.h). The placeholders are `SCAP_MAX_PATH_SIZE` = 1024, the IPv4 and IPv6 interface entries' fixed parts 16 and 52, `sizeof(scap_machine_info)` = 180, and `sizeof(struct ppm_evt_hdr)` = 22. The Poco `Message::Priority` values are likewise placeholders (FATAL 1 … TRACE 8). `CUSTOM_METRICS_FILTERS_HARD_LIMIT` is a parameter of `SanitizeLimits`.
- The fd-record codec (`scap_fd_info_len`, `scap_fd_write_to_disk`, `scap_fd_read_from_disk`) is not part of this model. A record is a u64 fd number, a u16 length and that many bytes. The machine-info block is an opaque byte string.
- The uthash tables are modelled as sequences in insertion order, which is their iteration order. Reading appends. `HASH_ADD_INT64` does not check for an existing key, so a file with repeated tids is read with both entries kept. `Tables.ProcMap` gives the map view for distinct tids.
- FindTid: `HASH_FIND_INT64` walks a bucket chain to which `HASH_ADD` prepends and which a table expansion reorders, so with repeated tids the entry it finds is usually the latest added and is not fixed by the table's order. The model's lookup takes the first entry in table order; among repeated tids that choice is the model's. `Tables.FindTidUnique` shows it is the only possible answer when tids are distinct.
- ReadFdBlockAt, FdlBlockTurn: with repeated tids, the process that receives the fds is the one the model's lookup picks, which need not be the one the source's hash table finds; for distinct tids the two agree (`Tables.FindTidUnique`).
- The trailers of the section header block and of event blocks are read but never checked by the source, and no lemma claims they are. An event is delivered with its padding and trailer after it, as the source reads `block_total_length - 8` bytes.
- No lemma composes a whole file from `SaveWrite.SetupDump` and `SaveWrite.Dump` into one `SaveRead.ReadInit`. The round-trip is proved block by block, in `FileRoundTrip.ShbReadBack`, `MiBlockTurn`, `IlBlockTurn`, `PlBlockTurn`, `FdlBlockTurn`, `EventStops` and `EventReadBack`. Each block is proved to be self-framed and to lead the loop to the next one.
- ReadEntriesPadding: when the last record of a PL or FDL block runs past `block_length`, the source computes a negative `padding_len`, which `fread` takes as a huge `size_t` count into the 4-byte `padding` variable. That is undefined behaviour (a stack overrun), not an error return. The model stops with `NegativePadding` instead.
- NextEvent, NextOffline: `scap_next_offline` reads `block_total_length - 8` bytes into the handle's fixed-size event buffer with no upper bound. The buffer and its size are not modelled, so an event of any length is delivered, where the source overruns the buffer.
- ReadIlBlock: decodes with the corrected `SaveRead.IlDecode` (first finding), so `totlen` is the entries' length where the source stores `block_length`. `ReadChecks.IlBlockAsWritten` gives the source's result: the same list with `totlen` replaced by `block_length`.
- FillInterfaces: returns the corrected `totlen`, the bytes the entries took, where line 829 sets `block_length`; the lists are the source's.
- ReadIfList: stores the list with the corrected `totlen` (first finding). After a failure in the second pass, the source frees `m_addrlist` but does not reset it to NULL, so the handle keeps a dangling pointer. The model leaves no list (`None`), and what a later use of that pointer would do is not modelled.
- ReadBlockBody, ReadBlockBodyFrom: the interface arm uses the corrected decoder, and the default arm rejects a total length below 12 where the source seeks backwards (second finding). `ReadChecks.BodyAsWritten` states exactly where they differ from `SaveRead.ReadBlockBodyAsWritten`, the switch as written.
- MetadataTurn, ReadMetadataBlock: inherit both corrections. `ReadChecks.TurnAsWritten` and `ReadChecks.IlTurnAsWritten` show that the turn as written, `SaveRead.MetadataTurnAsWritten`, is the same on every other block.
- ReadMetadata, ReadInit: built on the corrected turn. So where the source loops for ever (an unknown block of total length 0 after four zero bytes, `ReadChecks.SkipAsWrittenRereadsHeader`), the model stops with `BlockLengthTooShort`, and an interface list read back carries the corrected `totlen`. No loop over the as-written turn is defined, since it need not terminate.
- PL and FDL blocks whose u32 length arithmetic wraps: the round-trip lemmas require blocks shorter than 2^31 bytes, where the source's `(int32_t)` casts are exact.
- `metrics_filter`'s setters `set_filter` and `set_included` are the datatype updates `f.(filter := s)` and `f.(included := b)` and have no member of their own.
- The `metric_limits` cache, purge and logging (`entry::access`, `purge_limit`, `has`, `log`) use wall-clock time and floating point and are not modelled.
- The relative-path case of `normalize_path` depends on Poco's `Path::makeAbsolute`, which is not part of this model. It is a function parameter of `Configuration.NormalizePath`, and nothing is proved about it.
- The rest of `configuration.cpp` (YAML loading, environment, files, network) is not modelled.

The model keeps three behaviours of the code that a reader of the file format might not expect:
- a repeated tid in a PL block adds a second entry rather than replacing the first;
- 1 to 3 bytes left in a PL or FDL block are read as padding, not rejected;
- the event returned by `scap_next_offline` is followed by the block's padding and trailer.

It departs from the code in the two places listed under Findings: the readers use the corrected definitions, and the members named above say so.

## Findings

| source | as written | input that shows it | evidently intended | confidence | as-written member | corrected member |
|---|---|---|---|---|---|---|
| userspace/libscap/scap_savefile.c:829 | `scap_read_iflist` sets the list's `totlen` to `block_length`, which includes the 0–3 padding bytes the writer added after the entries | a list with one IPv4 entry whose name is 1 byte: 17 bytes of entries, written as a block of length 20 + 12, read back with `totlen` 20; a re-dump then declares 20 bytes, writes only the 17 entry bytes and no padding, and the block is 3 bytes shorter than its header and trailer say | `totlen` is the bytes the entries took, which is what the writer declared; proved for the corrected decoder by RoundTrip.IlDecodeOfPayload and FileRoundTrip.IlBlockTurn, and the as-written turn by FileRoundTrip.IlBlockTurnAsWritten | not executed | ReadChecks.IlDecodeAsWrittenKeepsPadding | SaveRead.IlDecode |
| userspace/libscap/scap_savefile.c:1128-1137 | an unknown block's body is skipped by `fseek(f, block_total_length - 8 - 4, SEEK_CUR)`, computed in `size_t` and passed as a `long`, so a total length below 12 seeks backwards | an unknown block header with total length 0 whose 4 preceding bytes are zero: those bytes are the previous block's trailer, either the section header's, which is never checked, or one equal to that block's own declared total, such as a machine-info block declaring 0. The seek goes to 4 bytes before the header, the zero read there matches the total length, and the loop reads the same header again, for ever | reject a block whose total length cannot hold its own header and trailer, and always move forward; proved for the corrected skip by ReadChecks.SkipMovesForward and ReadChecks.UnknownBlockTurn | not executed | ReadChecks.SkipAsWrittenRereadsHeader | SaveRead.Skip |
