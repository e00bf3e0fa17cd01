# Verified model of the mhvtl virtual tape library

mhvtl presents virtual tape drives and a media changer to SCSI initiators. This
project models the parts of it that keep state which must not go wrong, and
proves what initiators rely on. `dafny verify dfyconfig.toml` checks all of it.

A virtual cartridge is up to four partitions. Each partition is three files (an
index of fixed-size headers, the data, a filemark map), the filemark map in
memory, an end-of-data pair, and, for the partition in use, the header under the
head. All are updated one by one. `Cartridge.dfy` models them as classes whose
methods change these fields as the C functions do; `CartModel.dfy` is what they
must amount to: a list of blocks and filemarks with a cursor and a write flag.
Every method of the engine is proved to do to its files, maps and cached header
what the plain tape does, and gives its answers, so `Commands.PerformAll` holds
for every run of commands, and the rest is proved on the plain tape.

| file | what it holds |
|---|---|
| `Basics.dfy` | constants and helpers used by several files |
| `Files.dfy`, `Tape.dfy` | files as sequences; a tape as a list of objects, its bytes, its filemark map, and the step-by-step walks |
| `CartModel.dfy`, `Cartridge.dfy` | the plain tape; partitions and cartridge on files (`usr/vtlcart.c`) |
| `BlockIo.dfy` | reading and writing one block: capacity, warnings, packing, wrong lengths (`usr/mhvtl_io.c`) |
| `Commands.dfy` | restrictions and commands, and whole runs of them (`usr/ssc.c`) |
| `Permission.dfy`, `Senses.dfy`, `Positioning.dfy` | what each command leaves and answers, in terms of the tape and the drive's numbers alone |
| `LinearTape.dfy` | the older engine's header-by-header search for filemarks (`usr/vtlcart_v1.c`) |
| `Worm.dfy`, `Protection.dfy`, `Spacing.dfy`, `Capacity.dfy`, `RoundTrip.dfy` | WORM safety, write protection, spacing, the capacity bound and the warning, round trips and isolation |
| `Geometry.dfy` | sharing a medium between partitions, and the Medium Partition mode page (section 8.3.4 of SSC-3; `usr/mode.c`) |
| `PartitionPage.dfy` | rewriting that page in place when a volume is loaded (`usr/mode.c`) |
| `Library.dfy`, `ElementStatus.dfy`, `ElementReader.dfy`, `Inventory.dfy` | moving cartridges, READ ELEMENT STATUS, an initiator that reads its reply, and all together (section 6.12.2 of SMC-3; `usr/smc.c`) |
| `CommandQueue.dfy`, `Handlers.dfy` | the kernel module's command queues, and what becomes of one command (`kernel/mhvtl.c`) |
| `Mam.dfy` | the attribute files (`usr/vtlcart.c`, `usr/vtllib.c`) |

## Where the code does something else

The model follows the code. Where the code misses what its comments, its
interface or the standards promise, the first lemma or method named says exactly
when it meets it, and one named after it, if any, is an input where it does not.

- Spacing forward by blocks adds the count to the position in unsigned 32 bits
  (usr/vtlcart.c:429), so a long enough count comes round to the front of the
  tape: `Spacing.ForwMatchesWalk`, `Spacing.ForwAroundTheWorld`.
- Spacing back over more blocks than lie behind the head computes its target in
  unsigned 32 bits, so its test for a negative target (usr/vtlcart.c:490) never
  succeeds and the head lands at end of data: `Spacing.BackMatchesWalk`,
  `Spacing.BackOffTheBeginning`.
- LOCATE takes 64 bit numbers and goes to their low 32 bits (usr/ssc.c:708):
  `Spacing.LocateReaches`, `Spacing.LocateWraps`.
- The information field stored when block spacing meets a filemark
  (usr/vtlcart.c:447 and 506) is not the number of blocks not passed:
  `Spacing.MarkResidual`.
- VERIFY over zero filemarks (usr/ssc.c:370) reaches a spacing call that moves
  the head: `Spacing.ZeroMarksStays`, `Spacing.ZeroMarksMoves`.
- WRITE FILEMARKS goes ahead at block 0 of a WORM tape whatever the write flag
  says (usr/ssc.c:1891-1900) and erases the tape, while it still reports the
  refusal: `Worm.StepIsSafe`, `Worm.FilemarkErasesWormData`; with write protection
  `Protection.RunIsProtected`, `Protection.ProtectedBlockIsErased`.
- WRITE(6) of several blocks hands each block to a function that reads from the
  start of the transfer (usr/ssc.c:438-440), so the first block is written each
  time: `RoundTrip.ManyBlocksWritten`, `RoundTrip.SecondBlockIsLost`.
- READ(6) of several blocks goes on behind a block of the wrong length, which it
  has to report (usr/ssc.c:231): `RoundTrip.StopsWhereReported`,
  `RoundTrip.ShortBlockIsPassed`.
- READ ELEMENT STATUS takes address 0 for nothing found (usr/smc.c:863), but the
  Overland personality has a mail slot there (usr/pm/overland_pm.c:91):
  `ElementStatus.ReadElementStatus`, `ElementStatus.OverlandMailSlot`.
- READ ELEMENT STATUS for zero elements, which means all, announces none in its
  header: `ElementStatus.HeaderCount`, `ElementStatus.NoneOfOne`.
- An identifier of another length than 34 makes descriptors disagree with their
  announced size, as the default personality's 32 does:
  `ElementStatus.DescriptorSize`, `ElementStatus.DefaultPersonalityMiscounts`.
- READ ELEMENT STATUS starts from the first matching element listed, not the
  lowest: `ElementStatus.NothingPassedOver`, `ElementStatus.LowerSlotIsPassedOver`.
- A partition smaller than the reported unit is reported as one unit
  (usr/mode.c:808): `Geometry.ReadBack`, `Geometry.FiveComesBackAs99`.
- When a volume is loaded the page is rewritten in place, and sizes that are not
  recorded are read from it while its unit is new and its descriptors are part
  old (usr/mode.c:801-812). Each load may shrink what partitions are told:
  `PartitionPage.RecordedIsReported`, `PartitionPage.GrantedReported` and
  `PartitionPage.RestReported`; `PartitionPage.LoadedThreeTimes`,
  `PartitionPage.FiveOfCoarser`, `PartitionPage.ScaledTwice`,
  `PartitionPage.TwoRests`.
- The comment at kernel/mhvtl.c:561 says the serial number cannot wrap to 0; the
  code hands out 0 once a round: `CommandQueue.SerialIs`.
- `write_mam` does not cut the files it writes, so what a longer old file holds
  behind the new image is read back over it: `Mam.RestoredExactlyWhen`,
  `Mam.OldByteComesBack`.
- `load_tape` checks its files strictly only when the file that bypasses the
  check exists, and answers 0 whatever `load_partition` returns:
  `Cartridge.Cartridge.LoadFiles`, `Cartridge.LoadLongDataFile`.
- A drive-to-drive move that fails to load puts the cartridge back by a second
  move (usr/smc.c:1353), which leaves the last locations and the picker's access
  of the first: `Library.Library.MoveDriveToDrive` says when nothing has changed.
- Then the source drive is told to load again, but its element stays marked as
  open to the picker, so the next move takes the cartridge without telling the
  drive to unload (usr/smc.c:1257). The drive is told that it is empty after the
  move (usr/smc.c:295-300) and unloads then, but the answer is not looked at:
  `Library.Library.MoveDriveToSlot`, `Library.TakenWhileLoaded`. Over runs nothing
  else leads there: `Library.Library.MoveAll`.

## Model

| member | source | states |
|---|---|---|
| `Tape.BytesPrefix` | usr/vtlcart.c:233-283 | Cutting a tape at object k leaves exactly the front of the data file up to that object's offset, and consecutive offsets enclose exactly one object's bytes |
| `Tape.BytesAt` | usr/vtlcart.c:1582-1622 | Reading n bytes at an object's offset yields the first n bytes of that object and of no other |
| `Tape.MarksSorted` | usr/vtlcart.c:285-320 | The filemark map is strictly increasing and lists only positions of filemarks |
| `Tape.MarksComplete` | usr/vtlcart.c:285-320 | A position is in the map exactly when the object there is a filemark |
| `Tape.MarksPrefix` | usr/vtlcart.c:258-280 | Cutting the tape at k keeps exactly the map entries below k |
| `Tape.FirstMarkAtOrAfter` | usr/vtlcart.c:264-272 | The index at which a scan for the first entry at or after k stops is the number of filemarks before k |
| `Tape.MarksForwLookup` | usr/vtlcart.c:536-565 | Spacing count filemarks forward by one look into the map equals the one-filemark walk repeated count times: just after the count-th one, or end of data with the number missing |
| `Tape.MarksBackLookup` | usr/vtlcart.c:573-602 | The same backward: on the count-th filemark behind the head, or block 0 with the number missing |
| `Tape.BlocksForwLookup` | usr/vtlcart.c:416-469 | Spacing count blocks forward by one look into the map equals count single steps that stop after the first filemark or at end of data, with the count left over |
| `Tape.BlocksBackLookup` | usr/vtlcart.c:477-528 | What count single steps backward do, told by the map: they stop on the nearest filemark behind, or at the beginning |
| `Tape.ForwChangesCount` | usr/vtlcart.c:1660-1674 | A forward space of n filemarks raises the number of filemarks before the head by exactly n unless it runs out |
| `Tape.BackChangesCount` | usr/vtlcart.c:1660-1674 | A backward space of n filemarks lowers it by exactly n unless it runs out |
| `Tape.ThereAndBack` | usr/vtlcart.c:536-602 | From a position on a filemark, forward over n filemarks and back over n returns to that position |
| `CartModel.BlocksForwByMap` | usr/vtlcart.c:416-469 | The move and the answer read off the map are those of the step-by-step walk, flag included, for every count whose 32 bit target does not wrap |
| `CartModel.MarksForwByMap` | usr/vtlcart.c:536-565 | The same for filemarks forward, for every count of at least one |
| `CartModel.MarksBackByMap` | usr/vtlcart.c:573-602 | The same for filemarks backward |
| `CartModel.WrittenTwice` | usr/vtlcart.c:1420-1551 | Writing an object and then more is writing them all at once: the tape up to the head, then what was written, head at the new end |
| `Cartridge.HeadersPrefix` | usr/vtlcart.c:120-175 | Index entry k has number k and as offset the summed disk sizes of what precedes it; cutting the tape cuts the index file at entry k |
| `Cartridge.IndexTells` | usr/vtlcart.c:120-175 | Entry k gives type, sizes, packing and checksum of its object, and offset and disk size enclose exactly its bytes in the data file |
| `Cartridge.Partition.RewriteMetaFile` | usr/vtlcart.c:185-231 | The meta file is count and map, whatever it held before, shorter or longer |
| `Cartridge.Partition.CheckFilemarksAlloc` | usr/vtlcart.c:285-305 | The allocation stays, or grows to the count asked for rounded up to whole steps of 500; nothing it held is lost |
| `Cartridge.Partition.AddFilemark` | usr/vtlcart.c:307-320 | The map in use grows by exactly the block number and the meta file follows |
| `Cartridge.Partition.CutAt` | usr/vtlcart.c:244-282 | Cutting three files and the map at a block leaves them agreeing with the tape cut there |
| `Cartridge.Partition.AppendMark` | usr/vtlcart.c:1371-1401 | Files and map agree with the tape and one filemark more |
| `Cartridge.Partition.AppendBlock` | usr/vtlcart.c:1491-1550 | Files agree with the tape and one data block more |
| `Cartridge.Partition.Load` | usr/vtlcart.c:998-1172 | For files in any state the return code is the one they deserve, strict or not: 0 exactly for the files that pass the checks asked for, but that a lenient load judges a map cut short in its file by what the allocator returned for its end; then end of data and map are theirs |
| `Cartridge.Partition.AcceptanceMeans` | usr/vtlcart.c:1060-1160 | Files a load refuses: no count, a last filemark behind the index, and when strict a map of another length than counted, or a data file that does not end where the last entry does |
| `Cartridge.Cartridge.ReadHeader` | usr/vtlcart.c:144-175 | The header shown is index entry k, or the virtual end-of-data header at the end; nothing else changes |
| `Cartridge.Cartridge.CheckForOverwrite` | usr/vtlcart.c:233-283 | Everything from the head on is cut from all files; at end of data nothing is |
| `Cartridge.Cartridge.WriteMarks` | usr/vtlcart.c:1362-1403 | The loop leaves files and map agreeing with the tape cut at the head and count filemarks after it |
| `Cartridge.Cartridge.WriteFilemarks` | usr/vtlcart.c:1344-1418 | The tape becomes what was before the head and count filemarks, head at the new end; for count 0 nothing changes |
| `Cartridge.Cartridge.UndoPartialBlock` | usr/vtlcart.c:1495-1510 | After a short data write the partial bytes are gone and every file agrees with the tape cut at the head |
| `Cartridge.Cartridge.WriteTapeBlock` | usr/vtlcart.c:1420-1551 | The tape becomes what was before the head and one block of the right bytes, size and packing; on a data write failure only the cut remains; past the last block number nothing changes |
| `Cartridge.Cartridge.ReadTapeBlock` | usr/vtlcart.c:1582-1622 | The first bytes of the block under the head, at most as many as asked for, and the head one further; at end of data nothing moves |
| `Cartridge.Cartridge.RewindTape` | usr/vtlcart.c:328-358 | The head at block 0 and the write flag as the medium type and a lone filemark decide |
| `Cartridge.Cartridge.PositionToEod` | usr/vtlcart.c:366-377 | The head at end of data and the write flag up |
| `Cartridge.Cartridge.PositionToBlock` | usr/vtlcart.c:385-408 | The head at the block asked for, or at end of data when there is no such block |
| `Cartridge.Cartridge.PositionBlocksForw` | usr/vtlcart.c:416-469 | The head goes where the 32 bit target, the map and the tape's end take it, and the answer says so, for every count |
| `Cartridge.Cartridge.PositionBlocksBack` | usr/vtlcart.c:477-528 | The head goes where the 32 bit target, the map and the tape's end take it, and the answer says so, for every count |
| `Cartridge.Cartridge.PositionFilemarksForw` | usr/vtlcart.c:536-565 | The walk over count filemarks and its answer, for every count; for zero filemarks the position and answer the map index of that case gives |
| `Cartridge.Cartridge.PositionFilemarksBack` | usr/vtlcart.c:573-602 | The walk back over count filemarks |
| `Cartridge.Cartridge.CountFilemarks` | usr/vtlcart.c:1660-1674 | The number of filemarks before a block, or of all for -1 |
| `Cartridge.Cartridge.ChangePartition` | usr/vtlcart.c:851-867 | Another current partition, its head at block 0; no tape changes |
| `Cartridge.Cartridge.FormatPartition` | usr/vtlcart.c:1303-1313 | From block 0, the current partition becomes empty and well formed, all others stay |
| `Cartridge.Cartridge.FormatTape` | usr/vtlcart.c:1315-1336 | Exactly the asked number of empty well-formed partitions, none other |
| `Cartridge.Cartridge.UnloadTape` | usr/vtlcart.c:1553-1580 | Every partition's files hold its tape and memory is cleared |
| `Cartridge.Cartridge.LoadTape` | usr/vtlcart.c:1184-1292 | Files that hold tapes load with return code 0 each and give those tapes, head at the beginning of partition 0 |
| `Cartridge.Cartridge.LoadFiles` | usr/vtlcart.c:1184-1292 | For files in any state the answer is 0, and the tape counts as loaded exactly when there is a data file, whatever code each partition deserved and got; partitions whose files hold a tape get that tape all the same |
| `Cartridge.LoadLongDataFile` | usr/vtlcart.c:1130-1292 | A data file longer than its index says: load_partition says 2, load_tape says 0 |
| `Cartridge.LoadShortMap` | usr/vtlcart.c:1080-1100 | A map that counts a filemark it does not hold is refused by a strict load |
| `Cartridge.LoadMarkBehindIndex` | usr/vtlcart.c:1117-1129 | A filemark behind the end of the index is refused by any load |
| `Cartridge.Cartridge.Reload` | usr/vtlcart.c:998-1172 | Unloading and loading strictly is the identity on files, maps and ends of data of every partition |
| `Cartridge.Cartridge.constructor` | usr/vtlcart.c:934-996 | A new cartridge is one empty partition on well-formed files |
| `Cartridge.AcceptedBack` | usr/vtlcart.c:1040-1160 | Files written by the engine pass every check of a strict load, and the last header ends where the data file does |
| `BlockIo.WriteBlock` | usr/mhvtl_io.c:721-836 | Tape, bytes written and sense are those of the plain tape with a capacity: refused at or past capacity, warnings by zone, failure, all packings |
| `BlockIo.WritePacked` | usr/mhvtl_io.c:539-719 | Each of the three packings puts one block with the stored bytes, the size and the checksum of the data on the tape |
| `BlockIo.Fetch` | usr/mhvtl_io.c:46-241 | The data of the block under the head, uncompressed; bytes and header that disagree are refused |
| `BlockIo.ReadData` | usr/mhvtl_io.c:307-396 | The front of the block, through a bounce buffer if it is longer than asked for, and the head exactly one block further |
| `BlockIo.ReadBlock` | usr/mhvtl_io.c:252-442 | Bytes, position and sense at a block, a filemark and end of data; the buffer behind the delivered bytes is not touched by a good read |
| `Commands.CheckRestrictions` | usr/ssc.c:453-539 | The write flag and the answer for data, WORM and cleaning media and write protection |
| `Commands.WriteBlocks` | usr/ssc.c:436-445 | The loop of WRITE(6) puts the first block of the data on the tape count times, stopping at the first thing to report |
| `Commands.ReadBlocks` | usr/ssc.c:225-262 | The loop of READ(6), with and without the fixed bit, gives the data, position and last thing to report that reading the blocks one after another on the plain tape does |
| `Commands.DoRead` | usr/ssc.c:192-402 | READ(6) refuses a fixed read with suppressed length and a cleaning cartridge, and is that loop otherwise |
| `Commands.DoWrite` | usr/ssc.c:404-447 | WRITE(6) changes the tape only where writing is permitted, and then as the plain tape does; otherwise it says why not |
| `Commands.DoWriteFilemarks` | usr/ssc.c:1883-1918 | WRITE FILEMARKS on the plain tape, with the way round the restrictions at block 0 of a WORM tape, where the refusal is still reported, and the end of partition report |
| `Commands.DoErase` | usr/ssc.c:1685-1709 | ERASE empties the partition only from block 0 and only where writing is permitted; otherwise it says why not |
| `Commands.DoSpaceBlocks` | usr/cmd/vtltape.c:594-607 | SPACE over blocks, either direction and any count, moves and answers as the plain tape does |
| `Commands.DoSpaceMarks` | usr/cmd/vtltape.c:608-614 | SPACE over filemarks, either direction, moves and answers as the plain tape does |
| `Commands.DoLocate` | usr/ssc.c:657-711 | LOCATE goes to the partition, then to the block numbered by the low 32 bits of what was asked for |
| `Commands.PerformAll` | usr/ssc.c:377-539 | Every run of write, filemark, read, space, locate, rewind and erase commands on files, maps and cached header leaves the tapes, head and flag, and gives the answers and data, that the list of objects with a cursor does |
| `Permission.WritePermitted` | usr/ssc.c:404-539 | WRITE goes ahead if and only if the medium is not protected, no cleaning cartridge and, on WORM, the head is at end of data or the flag is up; otherwise nothing changes, and the answer is the first of the reasons that applies |
| `Permission.EraseEmpties` | usr/ssc.c:1685-1709 | ERASE answers good if and only if writing is permitted and the head is at the beginning; then the partition is empty with the head there, otherwise nothing changes and it says why |
| `Permission.MarksWritten` | usr/ssc.c:1883-1918 | WRITE FILEMARKS replaces everything from the head on by so many filemarks where writing is permitted and at the beginning of a WORM tape, and changes nothing elsewhere or for none |
| `Permission.MarksAnswered` | usr/ssc.c:1903-1918 | It answers end of partition if and only if filemarks were written behind no fewer bytes than the capacity, otherwise good if and only if writing is permitted |
| `Permission.ReadPermitted` | usr/ssc.c:192-402 | READ(6) is refused exactly for a fixed length with suppressed length check, and else on a cleaning cartridge; then nothing moves and no data comes |
| `Permission.AfterRewind` | usr/vtlcart.c:328-358 | After a rewind a WORM tape can be written if and only if it is blank or one lone filemark |
| `Permission.AfterSpaceEnd` | usr/vtlcart.c:366-377 | SPACE to end of data ends at the end of the tape, answers good, and every medium but a cleaning cartridge can be written there |
| `Permission.AfterLocate` | usr/vtlcart.c:385-408 | After LOCATE a WORM tape can be written if and only if the head is at end of data, or at the beginning of a lone filemark |
| `Permission.AfterSpacing` | usr/vtlcart.c:416-602 | After spacing a WORM tape can be written at end of data, and otherwise at most at the beginning of a lone filemark |
| `Permission.FormattedIs` | usr/vtlcart.c:1315-1336 | A format leaves so many empty partitions and the head at the beginning of the first, ready to be written |
| `Senses.WriteLeaves` | usr/mhvtl_io.c:721-836 | One write: refused exactly at or past the capacity; nothing past the last block number; a data failure leaves the cut; else one block of the stored bytes, size, packing and checksum replaces everything from the head on |
| `Senses.PackedAsSaid` | usr/mhvtl_io.c:539-719 | Each packing is that algorithm, both ways |
| `Senses.WriteWarns` | usr/mhvtl_io.c:800-829 | A whole block is answered with the early warning if and only if it ends within the early warning size of the capacity, and else with the programmable one if and only if within both sizes |
| `Senses.WarnsAt900` | usr/mhvtl_io.c:803-805 | With a capacity of 1000 and a warning size of 100, 450 bytes are written quietly and 900 with the warning |
| `Senses.WriteStops` | usr/ssc.c:436-445 | WRITE(6) of many blocks ends with the first block that has something to report, and as that block left it |
| `Senses.WriteBeyondNumbers` | usr/vtlcart.c:1440-1447 | Past the last block number WRITE(6) of any count does nothing and reports nothing |
| `Senses.ReadReports` | usr/mhvtl_io.c:252-442 | One read at end of data, at a filemark, at a sound block and at a damaged one: data, sense with its number, and place |
| `Senses.DamagedBlockRefused` | usr/mhvtl_io.c:46-241 | A block whose header has another size or checksum than its data is refused, with any packing |
| `Senses.LatestReported` | usr/ssc.c:225-257 | Of two blocks read by one READ(6) the later one with something to report is reported |
| `Senses.FixedReadOfNothing` | usr/ssc.c:231-252 | A fixed READ(6) stops where a read delivers nothing, with the number of blocks not read |
| `Positioning.BlocksForward` | usr/vtlcart.c:416-469 | Over n blocks forward, within 32 bits: to behind the first filemark on the way, answered with n + 1; over n objects; or to end of data with the number not passed |
| `Positioning.BlocksBackward` | usr/vtlcart.c:477-528 | Over n blocks back, within the tape: onto the first filemark on the way, answered with n, or over n objects |
| `Positioning.MarksForward` | usr/vtlcart.c:536-565 | Over n filemarks forward: to just behind a filemark with n more behind the head, or to end of data with the number missing |
| `Positioning.MarksBackward` | usr/vtlcart.c:573-602 | Over n filemarks back: onto a filemark with n fewer behind the head, or to the beginning with the number missing |
| `LinearTape.LinearTape.SkipNextFilemark` | usr/vtlcart_v1.c:297-316 | The older engine's search along the headers is the one-filemark walk |
| `LinearTape.LinearTape.SkipPrevFilemark` | usr/vtlcart_v1.c:277-291 | The same backward, starting off a filemark under the head |
| `LinearTape.LinearTape.PositionFilemarks` | usr/vtlcart_v1.c:512-530 | Repeating the search is the reference walk which the filemark map replaces |
| `Worm.RewoundIsSafe` | usr/vtlcart.c:328-358 | On every rewound WORM tape the write flag is up only at end of data or at block 0 of a tape of one lone filemark |
| `Worm.MarksStep` | usr/ssc.c:1883-1918 | WRITE FILEMARKS keeps the flag safe, and loses data exactly when it starts at block 0 of a tape that holds data |
| `Worm.StepIsSafe` | usr/ssc.c:453-514 | Every command keeps the flag safe; a command loses or alters a data block if and only if it is WRITE FILEMARKS at block 0 over data |
| `Worm.RunKeepsData` | usr/ssc.c:404-514 | Over every run from a safe state: no step loses data if and only if no step is that one; then all data is there at the end |
| `Worm.WormPromise` | usr/ssc.c:453-514 | From a rewound WORM tape no run without that command removes or alters a data block |
| `Worm.FilemarkErasesWormData` | usr/ssc.c:1891-1900 | A block, a rewind and a filemark: the block is gone from a WORM tape although the initiator is told that the attempt was refused |
| `Protection.ProtectedStep` | usr/ssc.c:453-539 | With write protection a command changes a tape if and only if it is WRITE FILEMARKS at block 0 of a WORM tape that is not those filemarks already |
| `Protection.RunIsProtected` | usr/ssc.c:453-539 | Over any run: no step changes a tape if and only if none is that one, and then all tapes are as before; on media other than WORM none is |
| `Protection.ProtectedBlockIsErased` | usr/ssc.c:1891-1900 | A write-protected WORM tape of one block becomes one filemark |
| `Spacing.BackMatchesWalk` | usr/vtlcart.c:477-528 | Spacing back ends where the walk does if and only if it does not run off the beginning or the wrapped 32 bit target still stops no later |
| `Spacing.BackOffTheBeginning` | usr/vtlcart.c:477-528 | With any count, running off the beginning is reported as past the end of data if and only if the wrapped target lies there, as for every count of SPACE(6) on a tape below 2^31 objects; then the head ends at end of data, harmless only on an empty tape |
| `Spacing.BackWithinTape` | usr/vtlcart.c:477-528 | Spacing back within the tape is the walk, with the same flag and the answer its stop calls for |
| `Spacing.ForwMatchesWalk` | usr/vtlcart.c:416-469 | Spacing forward ends where the walk does if and only if the target does not wrap in 32 bits, or the wrapped one still lies behind the next filemark, or behind the end when there is none |
| `Spacing.ForwAroundTheWorld` | usr/vtlcart.c:416-469 | From the beginning of any tape, spacing forward 2^32 blocks stays at block 0 and answers good |
| `Spacing.MarkResidual` | usr/vtlcart.c:440-512 | For every count: at a filemark the information field is never the blocks left going forward; going back it is exactly when the filemark is the very next object and the target did not wrap |
| `Spacing.ZeroMarksStays` | usr/ssc.c:366-371 | VERIFY over zero filemarks stays put if and only if the head is just after a filemark, or at end of data with no filemark behind |
| `Spacing.ZeroMarksMoves` | usr/ssc.c:366-371 | On a block, a filemark and a block, VERIFY over zero filemarks goes from the beginning to the end of data |
| `Spacing.LocateReaches` | usr/ssc.c:657-711 | LOCATE ends at the block asked for, or at end of data with that sense, if and only if the number is below 2^32 or its low 32 bits lie behind the end |
| `Spacing.LocateWraps` | usr/ssc.c:704-708 | LOCATE to block 2^32 goes to block 0 and answers good |
| `Spacing.MarkSpacingCounts` | usr/vtlcart.c:536-602 | Spacing filemarks changes the count of filemarks behind the head by exactly the count, clipped at what there is |
| `Capacity.OutcomeIsBounded` | usr/mhvtl_io.c:763-771 | One write, whole or failing, ends less than one largest block past the capacity |
| `Capacity.RunIsBounded` | usr/mhvtl_io.c:763-829 | Over any run of commands no partition ever holds its capacity and one largest block more |
| `Capacity.CartridgeIsBounded` | usr/mode.c:830-883 | With the capacities the mode page deals out, all partitions of a cartridge together never hold the medium and one largest block each, over any run of commands |
| `Capacity.WriteAdvances` | usr/vtlcart.c:1512-1550 | A write of one block, whatever fails, moves the head's offset by the stored size of the block, or not at all when it was refused or failed |
| `Capacity.BlocksWarn` | usr/mhvtl_io.c:800-829 | A write of many blocks from below the warning zone is never refused for room: it reports the early warning within the capacity, or is still below the zone, failing writes included |
| `Capacity.AppendStep` | usr/ssc.c:404-447 | So is every write or filemark command of a run |
| `Capacity.WarnedBeforeRefused` | usr/mhvtl_io.c:763-829 | In any run of write and filemark commands, of many blocks and with failures among them, from below a warning zone no smaller than a block, a reply that refuses for room comes after a reply with the early warning, and at that one the tape was within the capacity |
| `RoundTrip.WritesBuild` | usr/vtlcart.c:1344-1551 | A run of write commands from any permitted place leaves exactly the items there, in order, head after them |
| `RoundTrip.ReadOneBlock` | usr/mhvtl_io.c:252-442 | A request shorter than the block gets its prefix; either way the head passes exactly that block |
| `RoundTrip.ReadsSeeItems` | usr/mhvtl_io.c:252-442 | A run of read commands of any request length is answered by each item in order, a block by its front with the lengths compared, a filemark as such, and then by end of data; no tape changes |
| `RoundTrip.WriteRewindRead` | usr/ssc.c:192-447 | In one run: write any blocks and filemarks from the beginning, rewind, read, with any request length and any number of reads too many: the replies are the items in order and then end of data |
| `RoundTrip.AppendsAfterEnd` | usr/vtlcart.c:366-377 | In one run: SPACE to end of data from anywhere, then write items: they come after all that was there, other partitions untouched, on WORM as well |
| `RoundTrip.ExactReads` | usr/ssc.c:225-257 | A fixed READ(6) over n blocks of the asked length gives their data joined and goes on behind them as a READ(6) of the rest |
| `RoundTrip.FixedReadStops` | usr/ssc.c:225-257 | After n of them a filemark or the end of data stops it, with the number of blocks not read |
| `RoundTrip.StopsWhereReported` | usr/ssc.c:225-257 | It stops with the first thing it has to report if and only if that delivered no data, or was the last block asked for, or the tape ends there |
| `RoundTrip.ShortBlockIsPassed` | usr/ssc.c:225-257 | Of a one byte block and a two byte block, two blocks of two bytes: both are read, joined, though the first had the wrong length |
| `RoundTrip.ManyBlocksWritten` | usr/ssc.c:436-445 | Of a WRITE(6) of several blocks, the k-th object on tape is the k-th transferred block if and only if that block equals the first |
| `RoundTrip.SecondBlockIsLost` | usr/ssc.c:436-445 | Two different one byte blocks in one WRITE(6): the tape holds the first one twice |
| `RoundTrip.OthersUntouched` | usr/vtlcart.c:851-926 | No command changes a partition other than the one the head is in |
| `RoundTrip.RunLeavesOthers` | usr/vtlcart.c:851-926 | Over any run a partition never entered keeps its tape |
| `Geometry.CapacityFromPage` | usr/mode.c:830-883 | The loop over descriptors computes the share of the remainder, fixed and scaled rules, in 64 bits |
| `Geometry.WhenItFits` | usr/mode.c:830-862 | 64 bits hold every sum of requests if and only if the unit is at most 13, or 14 with two partitions |
| `Geometry.NoOverflow` | usr/mode.c:830-862 | Then no product and no sum wraps |
| `Geometry.SharesFit` | usr/mode.c:863-883 | For any requests the shares fit the medium; no fixed partition gets more than it asked for; remainder partitions keep more than half less the rounding of one division; with scaling or a remainder partition at most num - 1 bytes are given to nobody |
| `Geometry.PageShares` | usr/mode.c:830-883 | For any page whose requests fit in 64 bits the capacities told are those shares |
| `Geometry.WithoutPage` | usr/mode.c:830-850 | Without a page the partitions get the same and fewer bytes than there are partitions go to nobody; one partition gets all; others nothing |
| `Geometry.CapacitiesFit` | usr/mode.c:830-883 | So for any such page the capacities told add up to at most the medium, no fixed partition is told more than it asked for, remainder partitions are told the same and together keep half less a rounding, and at most num - 1 bytes are told to nobody |
| `Geometry.ToldExactly` | usr/mode.c:845-883 | What is asked for is granted where it fits the medium, or half of it beside remainder partitions; otherwise that much is dealt out in proportion, rounded down; remainder partitions share the rest evenly, rounded down |
| `Geometry.Medium.SetPartitionCapacity` | usr/mode.c:742-755 | Every partition's share is recorded, and zero for those there are not |
| `Geometry.Medium.PartitionCapacity` | usr/mode.c:818-828 | A recorded size wins over the page |
| `Geometry.FindUnit` | usr/mode.c:783-799 | The finest unit that serves, at most 15, and none finer does |
| `Geometry.ReadsBackRounded` | usr/mode.c:770-883 | Sizes of at least one unit, fitting the medium, come back from the reported page each rounded down to the unit, without scaling |
| `Geometry.TinyDoesNotVanish` | usr/mode.c:804-812 | A partition smaller than the unit comes back larger than its size rounded down, never as nothing |
| `Geometry.ReadBack` | usr/mode.c:770-883 | Reading the page back gives every size rounded down to the unit if and only if no partition is smaller than a unit |
| `Geometry.FiveComesBackAs99` | usr/mode.c:804-883 | Partitions of 5 and 655350 bytes are reported in hundreds, and the first comes back as 99 bytes |
| `PartitionPage.UpdatePage` | usr/mode.c:770-816 | The unit is the finest that serves for the sizes told before; then the page is rewritten descriptor by descriptor, each from the page as it is by then; without a page nothing happens |
| `PartitionPage.SettledIsRight` | usr/mode.c:803-813 | The only partition, one with a recorded size, or one whose descriptor is zero is reported right whatever becomes of the others |
| `PartitionPage.RecordedIsReported` | usr/mode.c:770-816 | With only such partitions the page reports every size in the finest unit that serves, at most 0xfffe, zero exactly for a size of zero |
| `PartitionPage.NothingBehind` | usr/mode.c:803-813 | The descriptors behind the last partition become zero |
| `PartitionPage.CountsAreTheVolumes` | usr/mode.c:793-801 | The page gets the numbers of partitions of the volume, less one each, and the unit |
| `PartitionPage.DescriptorsStay` | usr/mode.c:770-816 | With nothing recorded, no remainder and no scaling only the unit changes, and from then on every partition is told so many of the new unit |
| `PartitionPage.GrantedReported` | usr/mode.c:770-816 | Then the report is right if and only if the page counted in bytes, some descriptor is above 6553, or all are zero |
| `PartitionPage.RestReported` | usr/mode.c:770-816 | With nothing recorded, no scaling and one remainder partition, and a unit that serves for all: right if and only if no finer unit serves, or nothing is beside the remainder |
| `PartitionPage.RestAlone` | usr/mode.c:770-816 | A remainder beside nothing is reported right whatever the unit was and becomes |
| `PartitionPage.LoadedThreeTimes` | usr/mode.c:664-671 | A terabyte medium of two partitions, nothing recorded, with the page a drive starts with: a partition is told 2 GB, and after one, two and three loads 200000, 20 and 2 bytes |
| `PartitionPage.FiveOfCoarser` | usr/mode.c:770-816 | Five bytes beside a remainder that needs a coarser unit: five are reported as five hundred, and the remainder five hundred short |
| `PartitionPage.ScaledTwice` | usr/mode.c:863-883 | Two partitions asking for twice the medium, told half each: the second is reported a third larger |
| `PartitionPage.TwoRests` | usr/mode.c:863-883 | Ten and two remainders of 45 each: the second is reported as 50 |
| `Library.ShiftConserves` | usr/smc.c:994-1010 | Moving a cartridge to an empty element keeps the multiset of places' contents and puts none in two places |
| `Library.Library.MoveCart` | usr/smc.c:994-1010 | The cartridge map shifts by one cartridge; Full bits, last locations, access and import bits follow, and the drives are not touched |
| `Library.Library.ValidSlot` | usr/smc.c:1194-1221 | Accepted exactly when there is an element at the address that is a storage or mail slot or has a drive |
| `Library.TypeByRange` | usr/smc.c:80-97 | The type of an address is that of the one range it lies in |
| `Library.Library.VerdictReasons` | usr/smc.c:1052-1379 | When a move is good, and when each refusal is given, by where cartridges are and what is told: each refusal exactly when its own reason holds and all before it were in order |
| `Library.Library.MoveSlotToDrive` | usr/smc.c:1052-1127 | The answer is the first thing in the way; when good the map shifts by one cartridge, the two elements say so and the drive has it loaded, when not nothing changes |
| `Library.Library.MoveSlotToSlot` | usr/smc.c:1129-1191 | The same between slots |
| `Library.Library.MoveDriveToSlot` | usr/smc.c:1223-1286 | The same out of a drive; the cartridge leaves a drive that still has it loaded if and only if the picker had access to it, and then it stays loaded unless the drive does as told afterwards |
| `Library.Library.MoveDriveToDrive` | usr/smc.c:1289-1379 | The same between drives: a failed load rolls the cartridge back to the same map; every field is as before if and only if the picker had access to both, the last locations already named the other drive, and the source is loaded as it was |
| `Library.Library.HandOver` | usr/smc.c:1335-1378 | Its second half: what the two elements, the cartridge and the two drives are after a good load and after a failed one |
| `Library.Library.FailedThenOut` | usr/smc.c:1223-1357 | After a failed move between drives the next move takes the cartridge out of a drive that has it loaded if and only if that drive loaded it again |
| `Library.TakenWhileLoaded` | usr/smc.c:1052-1357 | Load, a failed move to another drive, a move to a slot: the cartridge is taken from a drive that has it loaded |
| `Library.Library.Ejected` | usr/cmd/vtllibrary.c:479-495 | A drive that unloaded on its host's command gets its access bit set when its element is full; no other element changes and no cartridge moves |
| `Library.Library.MoveMedium` | usr/smc.c:1382-1470 | Which addresses are accepted, the answer in every case, that no other element changes and any failure leaves every cartridge where it was; only drives without access have cartridges loaded, before and after, unless a drive loaded again what it got back |
| `Library.Library.MoveAll` | usr/smc.c:1382-1470 | Over any run of moves and ejects with any answers every cartridge stays in exactly one element, Full exactly where one is; a run without success moves nothing; and no cartridge leaves a drive that has it loaded unless an earlier failed move ended with its source drive loading again |
| `ElementStatus.DescriptorSize` | usr/smc.c:423-567 | A descriptor has the announced size if and only if the identifier written has the length announced |
| `ElementStatus.DescriptorsSize` | usr/smc.c:572-606 | The descriptors of a page together fill exactly element size times count |
| `ElementStatus.FillElementPage` | usr/smc.c:706-787 | One page: header and the descriptors of the first matching elements up to what is left of the limit, nothing at all for none, or where the first is at address 0 |
| `ElementStatus.BubbleSort` | usr/vtllib.c:2263-2281 | The array is in order and holds the same values, early exit included |
| `ElementStatus.SortTypes` | usr/vtllib.c:2283-2313 | Each sorted start address is paired with the last type tried that starts there |
| `ElementStatus.SortedTypes` | usr/vtllib.c:2283-2313 | The list has all four types in order of address if and only if no two start at the same one |
| `ElementStatus.FillPages` | usr/smc.c:911-928 | Of any type: one page a type in the order given, each with the room earlier pages left, as if all types had been gone through from the start address |
| `ElementStatus.ReportedIsCut` | usr/smc.c:706-787 | The elements on all pages are the type-by-type list of matching elements cut to the limit |
| `ElementStatus.EveryElementOnce` | usr/smc.c:889-928 | Type by type from the start address, every matching element is listed exactly as often as the library has it |
| `ElementStatus.FourTypes` | usr/smc.c:667-694 | The elements of any type are those of the four types together, each as often |
| `ElementStatus.ReadElementStatus` | usr/smc.c:797-961 | Good if and only if some element matches and the first of them is not at address 0; then the reply byte for byte: header, then the pages, of one type or of all in order of address, cut to the allocation length |
| `ElementStatus.OverlandMailSlot` | usr/pm/overland_pm.c:86-98 | A mail slot at address 0: an element matches and the command is refused |
| `ElementStatus.ReplyAnnounces` | usr/smc.c:936-953 | The reply, decoded: the address of the first element, as many elements as the pages list, and as many bytes as follow the header |
| `ElementStatus.BodyIsBounded` | usr/smc.c:936-953 | The pages fill at most 32 bytes and 255 for each element, so 24 bits hold their size |
| `ElementStatus.DefaultPersonalityMiscounts` | usr/pm/default_smc_pm.c:10-17 | With identifiers announced 32 bytes long a drive's descriptor is two bytes longer than announced |
| `ElementStatus.NoneOfOne` | usr/smc.c:938-942 | One element, any type, none asked for: the page lists it and the header counts none |
| `ElementStatus.HeaderCount` | usr/smc.c:938-942 | Of any type, the header's count is the number of elements on the pages if and only if the number asked for is not zero |
| `ElementStatus.PageAnnounces` | usr/smc.c:572-606 | A page's header, decoded, gives the size of each descriptor and the bytes of all |
| `ElementReader.PageCodes` | include/smc.h:11-14 | The first byte of a page is 1 for the picker, 2 for storage, 3 for mail slots and 4 for drives |
| `ElementReader.PageFlags` | usr/smc.c:572-606 | The flags of a page say whether volume tags are there, and 0x40 on a page of drives known by serial number alone |
| `ElementReader.HeadsAndReserved` | usr/smc.c:443-567 | Reserved bytes are zero, and an identifier is marked ASCII and by its type |
| `ElementReader.DescriptorSeen` | usr/smc.c:443-567 | A descriptor read by the byte layout gives address, Full, Import/Export and Access bits, sense codes, bus number, medium type, source, volume tag and identifier of its element |
| `ElementReader.BlankFilled` | usr/vtllib.c:1199-1214 | A field too short is filled with blanks, one too long is cut |
| `ElementReader.ChosenInOrder` | usr/smc.c:706-787 | Elements are chosen one by one in the order of the list |
| `ElementReader.FirstAreListed` | usr/smc.c:706-787 | Of one type the first matching elements are listed, as many as were asked for, 65535 for zero |
| `ElementReader.ReplySeen` | usr/smc.c:797-961 | Reading the reply page by page, types taken from the page headers, gives back exactly the elements listed, in order, each with all there is to see of it |
| `ElementStatus.NothingPassedOver` | usr/smc.c:646-664 | No matching element is left out for lying before the first one listed if and only if that one has the lowest address |
| `ElementStatus.LowerSlotIsPassedOver` | usr/smc.c:646-664 | Of slots listed as 5 and 3, the report starts at 5 and leaves 3 out |
| `Inventory.DescriptorTells` | usr/smc.c:443-567 | The descriptor of any element of the library has its address, says Full if and only if a cartridge is there, and its volume tag is that cartridge's, or zeros |
| `Inventory.SlotShown` | usr/smc.c:443-567 | What is seen of an element: its type and address, Full if and only if a cartridge is there, its bits, where that cartridge came from, and its tag |
| `Inventory.ReportSeen` | usr/smc.c:797-961 | An initiator that reads a report of the library back sees the elements listed so, in order |
| `Inventory.Report` | usr/smc.c:797-961 | Good if and only if the first matching element is not at address 0; then the report is the reply for the library's elements, each of whose descriptors tells what it holds |
| `Inventory.ReportAfter` | usr/smc.c:797-1470 | After any run of moves and ejects with any answers the report is that of the elements as they are then, with the cartridges there were |
| `CommandQueue.OneFate` | kernel/mhvtl.c:532-1603 | In every run of fewer than 2^64 submissions, with any number of units, a submitted command is in its list, or done, or withdrawn: exactly one of them, once; its header went out at most once; no other unit ever touched its number |
| `CommandQueue.HeadersInOrder` | kernel/mhvtl.c:1580-1603 | In every run the headers given to the daemon are, per unit, a subsequence of the submissions, each no more often than submitted |
| `CommandQueue.FateIsFinal` | kernel/mhvtl.c:776-1014 | Once withdrawn a command is never called back later in the run; once called back it is never called again nor withdrawn |
| `CommandQueue.UnknownSerial` | kernel/mhvtl.c:698-812 | Completing a number changes the state if and only if the unit holds it; a timer, if and only if some unit does |
| `CommandQueue.TimeoutCompletes` | kernel/mhvtl.c:776-812 | A timer finds the right unit by the number alone and does what a completion would |
| `CommandQueue.StopSettles` | kernel/mhvtl.c:991-1014 | After a reset the lists are empty, no callback was called by it, and every submission was done or withdrawn |
| `CommandQueue.PollsHandOut` | kernel/mhvtl.c:1580-1603 | k polls hand out exactly the first k waiting commands in order, or all of them |
| `CommandQueue.HandleAll` | kernel/mhvtl.c:532-1603 | Any sequence of handlers on lists, states, number and history is the run the properties are about |
| `CommandQueue.SerialIs` | kernel/mhvtl.c:560-564 | The k-th serial number in closed form: it starts at 2 and comes round through 0 |
| `CommandQueue.SerialsDistinct` | kernel/mhvtl.c:560-564 | The first n serial numbers differ if and only if n is below 2^64 |
| `Handlers.SubmitAdds` | kernel/mhvtl.c:532-579 | A submission puts exactly that command, waiting, with the next number at the tail; without memory nothing happens |
| `Handlers.PollHands` | kernel/mhvtl.c:1580-1603 | A poll hands out the first waiting command, which stays and waits no more; when the copy fails nothing happens |
| `Handlers.CompleteCallsBack` | kernel/mhvtl.c:1519-1578 | A completion calls the callback of the first command with the number, which leaves; nothing else happens |
| `Handlers.TimeoutCallsBack` | kernel/mhvtl.c:776-812 | So does a timer, in the first unit that has the number |
| `Handlers.AbortWithdraws` | kernel/mhvtl.c:967-988 | An abort calls no callback, takes back exactly the first entry of the command, and does nothing where there is none |
| `Handlers.AbortedIsNeverCalled` | kernel/mhvtl.c:967-988 | In no run that goes on after an abort that found a command is the callback of that command called |
| `Handlers.CompletedIsNeverWithdrawn` | kernel/mhvtl.c:1519-1578 | In every run that goes on after a completion the command was called once and is not withdrawn |
| `CommandQueue.Adapter.QueueCommand` | kernel/mhvtl.c:532-579 | One command more at the tail, with the next number; nothing without memory |
| `CommandQueue.Adapter.Lookup` | kernel/mhvtl.c:698-712 | The first entry with the number |
| `CommandQueue.Adapter.SendHeader` | kernel/mhvtl.c:1580-1603 | The first waiting command, its header and its state; nothing changes when the copy fails or none waits |
| `CommandQueue.Adapter.PutUserData` | kernel/mhvtl.c:1519-1578 | The command with the number is done and leaves; busy when it is not in this unit's list |
| `CommandQueue.Adapter.TimerExpired` | kernel/mhvtl.c:776-812 | The first unit that holds the number loses that command to its callback |
| `CommandQueue.Adapter.StopQueued` | kernel/mhvtl.c:967-988 | The first entry of the command leaves without callback; found exactly when there was one |
| `CommandQueue.Adapter.StopAllQueued` | kernel/mhvtl.c:991-1014 | Every entry of every unit leaves without callback |
| `Mam.ParseOne` | usr/vtlcart.c:628-670 | Reading one entry of any id and length, known, unknown, shorter or longer than its field, ends exactly where the entry does |
| `Mam.EntryBytes` | usr/vtlcart.c:736-750 | An entry is id and length in 16 bits each, low byte first, and the value |
| `Mam.EntryAt` | usr/vtlcart.c:736-750 | The k-th entry lies behind the bytes of those before it |
| `Mam.ImageStarts` | usr/vtlcart.c:728-734 | The two versions come first, the entries from byte 8 |
| `Mam.HeaderCutShort` | usr/vtlcart.c:628-645 | A last byte alone is passed over, a file that ends within a header is refused |
| `Mam.ValueCutShort` | usr/vtlcart.c:645-670 | So is one that ends within a value |
| `Mam.ParseAll` | usr/vtlcart.c:628-670 | A file of any entries in any order is read entry by entry to its end |
| `Mam.ApplyIsLastByte` | usr/vtlcart.c:645-668 | Each byte of an attribute is that of the last entry of its id that reaches so far, or what memory held |
| `Mam.HeldIsRestored` | usr/vtlcart.c:609-716 | Entries permuted, with unknown ones between and longer values restore every attribute, whatever memory held |
| `Mam.WriteThenRead` | usr/vtlcart.c:609-769 | Reading both files after writing them over files no longer restores versions and all attributes into any memory of that layout |
| `Mam.RemainderIsRead` | usr/vtlcart.c:723-769 | What a longer old file holds behind the new image is read on top of what was written |
| `Mam.RestoredExactlyWhen` | usr/vtlcart.c:723-769 | Written over a file of n bytes a table is sure to be restored if and only if fewer than two bytes lie behind its image |
| `Mam.OldByteComesBack` | usr/vtlcart.c:723-769 | A table of one byte 7 written over a file that ends in an entry 9 for it is read back as 9 |
| `Mam.InitIsProper` | usr/vtllib.c:99-180 | The ids of the two tables are distinct, lengths fit 16 bits, and the last row only ends the table |
| `Mam.ReadEntries` | usr/vtlcart.c:628-670 | The loop of reads and seeks is the parse, short reads and seeks past the end included |
| `Mam.WriteEntries` | usr/vtlcart.c:736-750 | The loop of writes puts the encoded rows into the file and leaves the rest of it |
| `Mam.AuxiliaryMemory.ReadMam` | usr/vtlcart.c:609-716 | Versions and both tables as read, and 0 or -1; a file not open is skipped |
| `Mam.AuxiliaryMemory.WriteMam` | usr/vtlcart.c:723-769 | Both images written over the old files, which are not cut |

## Left out

- Cartridge.Partition.CheckFilemarksAlloc: the map is a sequence with an allocated length instead of an array, so aliasing is not modelled; new entries are arbitrary, as after realloc. Failing allocations are not modelled anywhere.
- Cartridge.Cartridge.WriteFilemarks: asks for a count within the last 32 bit block number, and takes it that index writes and truncations succeed; what the files are after such a failure (usr/vtlcart.c:1522, or a failure inside the filemark loop) is not modelled. The data write failure is.
- Cartridge.Cartridge.WriteTapeBlock: encryption key data in headers and the NULL medium, which keeps no data, are not part of this model.
- Cartridge.Cartridge.PositionFilemarksBack: asks for a count of at least one, as its callers do.
- Cartridge.Cartridge.ChangePartition: asks for a partition the cartridge has.
- Cartridge.Cartridge.FormatPartition: asks for block 0, as its callers ensure.
- Cartridge.Cartridge.LoadTape: files that hold tapes; any others are loaded by LoadFiles.
- Cartridge.Cartridge.LoadFiles: files are whole records; updates of old MAM and tape formats, partial records at the end of a file, headers that cannot be read, and paths and permissions are not modelled.
- Cartridge.Cartridge.RewindTape: positions and flags are modelled, not the return code 1 which rewind_tape and position_to_block(0) give for success.
- BlockIo.WriteBlock: logical block protection, TapeAlert flags and the remaining capacity attribute are not modelled. LZO, zlib and CRC32C are functions with an inverse law and no other properties.
- BlockIo.Fetch: data that uncompresses to another length than the header says is an error here; the C code goes on with the header's length, or with none, and leaves it to the checksum to find out.
- Commands.CheckRestrictions: append-only mode (usr/ssc.c:527 overwrites the pointer to the flag instead of the flag).
- Commands.DoLocate: asks for a partition that exists (the guard at usr/ssc.c:696 lets one more through), and leaves out LOCATE(16) to logical files and to end of data.
- Commands.DoRead: logical block protection and encryption are left out, and the information field of a read error is not modelled.
- Commands.PerformAll: commands run with a tape loaded; without one the engine's methods answer NotReady, which is proved method by method. VERIFY, FORMAT MEDIUM and changes of mode between commands are not commands of a run.
- PartitionPage.RestReported: where nothing is recorded and sizes are scaled, several partitions take the remainder, or the old unit is too fine, and where only some sizes are recorded, single partitions (SettledIsRight) and failing inputs are given, not the exact condition.
- Geometry.CapacitiesFit: scaled as in CapacityFromPage.
- Geometry.CapacityFromPage: scaled sizes are computed in whole numbers; the C code scales in floating point, whose rounding is not modelled.
- Library.Library.MoveDriveToSlot: a drive whose element is empty is taken to answer that it is empty (usr/smc.c:1258 would otherwise read the barcode of no cartridge), and one that does not answer the unload is taken to stay loaded.
- Library.Library.MoveDriveToDrive: the same.
- Library.Library.MoveMedium: the same; a transport element never holds a cartridge.
- ElementStatus.ReadElementStatus: asks for distinct ordered address ranges and for identifiers of the announced length, and leaves out the check of the reserved byte and the size of the reply buffer.
- ElementStatus.FillPages: asks for identifiers of the announced length, too.
- ElementStatus.FillDescriptors: the reply is a sequence that grows, instead of a buffer written through a pointer.
- CommandQueue.OneFate: each handler is one atomic step; locks, the races between looking up a command and removing it, and the done callback's own work are not modelled. Numbers are compared over fewer than 2^64 submissions.
- Mam.WriteThenRead: writes succeed; which attributes an initiator may change is not modelled.
- Mode pages other than Medium Partition, log pages, vital product data, inquiry data, density tables and sense data beyond key, flags and information: long and shallow.
- Persistent reservations: three variables, which would add only easy members.
- The 48 bit byte order helpers, whose put and get are not inverses, and the easy other widths.
- Message queues, daemons, configuration files, kernel memory mapping and device registration, command-line tools and the web interface.
