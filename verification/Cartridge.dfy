// The virtual tape cartridge: for each partition a data file, an index file
// of block headers and a meta file, with a filemark map and an end-of-data
// pair in memory, and one current header shared by all partitions.

module Cartridge {
  import opened Basics
  import opened CartModel
  import opened Files
  import opened Tape

  const FM_DELTA: nat := 500

  datatype BlockType = B_DATA | B_FILEMARK | B_EOD

  datatype Header = Header(
    offset: nat, blockType: BlockType, number: nat, size: nat, diskSize: nat,
    packing: Packing, crc: nat, partition: nat)

  function MakeHeader(o: Object, offset: nat, number: nat, id: nat): Header {
    match o
    case Filemark => Header(offset, B_FILEMARK, number, 0, 0, Raw, 0, id)
    case Block(stored, size, packing, crc) =>
      Header(offset, B_DATA, number, size, |stored|, packing, crc, id)
  }

  function EodHeader(offset: nat, number: nat, id: nat): Header {
    Header(offset, B_EOD, number, 0, 0, Raw, 0, id)
  }

  // The index file of a partition.
  function Headers(objs: seq<Object>, id: nat): (r: seq<Header>)
    ensures |r| == |objs|
  {
    if objs == [] then []
    else
      var k := |objs| - 1;
      Headers(objs[..k], id) + [MakeHeader(objs[k], |Bytes(objs[..k])|, k, id)]
  }

  // The meta file of a partition: the filemark count, then the map.
  function MetaWords(marks: seq<nat>): seq<nat> {
    [|marks|] + marks
  }

  function HeaderAt(objs: seq<Object>, k: nat, id: nat): Header
    requires k <= |objs|
  {
    if k < |objs| then Headers(objs, id)[k] else EodHeader(|Bytes(objs)|, k, id)
  }

  lemma HeadersAppend(objs: seq<Object>, o: Object, id: nat)
    ensures Headers(objs + [o], id) ==
            Headers(objs, id) + [MakeHeader(o, |Bytes(objs)|, |objs|, id)]
  {
    assert (objs + [o])[..|objs|] == objs;
  }

  // Entry k has number k and the summed size of what precedes it as offset,
  // and cutting the tape at k cuts the index file at entry k.
  lemma {:induction false} HeadersPrefix(objs: seq<Object>, k: nat, id: nat)
    requires k <= |objs|
    ensures Headers(objs[..k], id) == Headers(objs, id)[..k]
    ensures k < |objs| ==>
      Headers(objs, id)[k] == MakeHeader(objs[k], |Bytes(objs[..k])|, k, id)
  {
    if k == |objs| {
      assert objs[..k] == objs;
    } else {
      var n := |objs| - 1;
      assert objs[..n][..k] == objs[..k];
      HeadersPrefix(objs[..n], k, id);
    }
  }

  // What entry k says of its object, and where in the data file that lies.
  lemma IndexTells(objs: seq<Object>, k: nat, id: nat)
    requires k < |objs|
    ensures var h := Headers(objs, id)[k];
      && h.number == k && h.partition == id && h.offset + h.diskSize <= |Bytes(objs)|
      && (objs[k].Filemark? <==> h.blockType == B_FILEMARK) && (objs[k].Block? <==> h.blockType == B_DATA)
      && (objs[k].Filemark? ==> h.diskSize == h.size == 0)
      && (objs[k].Block? ==>
          && Bytes(objs)[h.offset..h.offset + h.diskSize] == objs[k].stored
          && h.size == objs[k].size && h.packing == objs[k].packing && h.crc == objs[k].crc)
  {
    HeadersPrefix(objs, k, id);
    BytesPrefix(objs, k);
    BytesPrefix(objs, k + 1);
    if objs[k].Block? {
      BytesAt(objs, k, |objs[k].stored|);
    }
  }

  // The size a map is given: a whole number of steps of 500.
  function RoundUp(count: nat): (r: nat)
    ensures count <= r < count + 500 && r % 500 == 0
  {
    ((count + FM_DELTA - 1) / FM_DELTA) * FM_DELTA
  }

  // The filemark map is a block of memory of filemark_alloc entries, of which
  // the first filemarkCount are in use.
  class Partition {
    const id: nat
    // The three files.
    var present: bool
    var index: seq<Header>
    var data: seq<byte>
    var meta: seq<nat>
    // What is kept in memory.
    var filemarks: seq<nat>
    var filemarkCount: nat
    var eodBlock: nat
    var eodOffset: nat

    constructor (id: nat)
      ensures this.id == id && Absent()
    {
      this.id := id;
      present, index, data, meta := false, [], [], [];
      filemarks, filemarkCount, eodBlock, eodOffset := [], 0, 0, 0;
    }

    ghost predicate OnDisk(objs: seq<Object>)
      reads this
    {
      present && index == Headers(objs, id) && data == Bytes(objs) && meta == MetaWords(Marks(objs))
    }

    ghost predicate Mapped(objs: seq<Object>)
      reads this
    {
      filemarkCount <= |filemarks| && filemarks[..filemarkCount] == Marks(objs)
    }

    ghost predicate Ended(objs: seq<Object>)
      reads this
    {
      eodBlock == |objs| && eodOffset == |Bytes(objs)|
    }

    // Everything about the partition agrees with its tape; a stale partition's
    // end-of-data pair lags behind a write in progress.
    ghost predicate Agrees(objs: seq<Object>, stale: bool)
      reads this
    {
      OnDisk(objs) && Mapped(objs) && (stale || Ended(objs))
    }

    ghost predicate Absent()
      reads this
    {
      !present && filemarkCount == 0 && eodBlock == 0 && eodOffset == 0
    }

    // rewrite_meta_file: overwrite header and map, then cut what is left over.
    method RewriteMetaFile()
      requires filemarkCount <= |filemarks| && |meta| >= 1
      modifies this`meta
      ensures meta == MetaWords(filemarks[..filemarkCount])
    {
      meta := PWrite(meta, 0, [filemarkCount]);
      if filemarkCount > 0 {
        meta := PWrite(meta, 1, filemarks[..filemarkCount]);
      }
      meta := Truncate(meta, 1 + filemarkCount);
    }

    // check_filemarks_alloc: grow the map, keeping what it holds. The new
    // entries are whatever the allocator returns.
    method CheckFilemarksAlloc(count: nat)
      requires filemarkCount <= |filemarks|
      modifies this`filemarks
      ensures |filemarks| == if count > |old(filemarks)| then RoundUp(count) else |old(filemarks)|
      ensures old(filemarks) <= filemarks
    {
      if count > |filemarks| {
        var junk := Junk(RoundUp(count) - |filemarks|);
        filemarks := filemarks + junk;
      }
    }

    method AddFilemark(block: nat)
      requires filemarkCount <= |filemarks| && |meta| >= 1
      modifies this`filemarks, this`filemarkCount, this`meta
      ensures filemarkCount == old(filemarkCount) + 1 <= |filemarks|
      ensures filemarks[..filemarkCount] == old(filemarks[..filemarkCount]) + [block]
      ensures meta == MetaWords(filemarks[..filemarkCount])
    {
      CheckFilemarksAlloc(filemarkCount + 1);
      filemarks := filemarks[filemarkCount := block];
      filemarkCount := filemarkCount + 1;
      RewriteMetaFile();
    }

    // check_for_overwrite: cut index and data file at a block, then drop the
    // filemarks from there on, rewriting the meta file if any went.
    method CutAt(number: nat, offset: nat, ghost objs: seq<Object>)
      requires Agrees(objs, false)
      requires number <= |objs| && offset == |Bytes(objs[..number])|
      modifies this`index, this`data, this`meta, this`filemarkCount
      ensures Agrees(objs[..number], true)
    {
      HeadersPrefix(objs, number, id);
      BytesPrefix(objs, number);
      MarksPrefix(objs, number);
      index := Truncate(index, number);
      data := Truncate(data, offset);
      var i := FirstMark(number, objs);
      if i < filemarkCount {
        filemarkCount := i;
        RewriteMetaFile();
      }
      assert filemarks[..filemarkCount] == Marks(objs[..number]);
    }

    // One filemark: its header at the end of the index file, its number in the map.
    method AppendMark(h: Header, ghost objs: seq<Object>)
      requires Agrees(objs, true)
      requires h == MakeHeader(Filemark, |Bytes(objs)|, |objs|, id)
      modifies this`index, this`filemarks, this`filemarkCount, this`meta
      ensures Agrees(objs + [Filemark], true)
    {
      HeadersAppend(objs, Filemark, id);
      BytesAppend(objs, Filemark);
      MarksAppend(objs, Filemark);
      index := PWrite(index, h.number, [h]);
      AddFilemark(h.number);
    }

    // One data block: its bytes at the end of the data file, then its header.
    method AppendBlock(h: Header, stored: seq<byte>, ghost o: Object, ghost objs: seq<Object>)
      requires Agrees(objs, true)
      requires o.Block? && o.stored == stored && h == MakeHeader(o, |Bytes(objs)|, |objs|, id)
      modifies this`index, this`data
      ensures Agrees(objs + [o], true)
    {
      HeadersAppend(objs, o, id);
      BytesAppend(objs, o);
      MarksAppend(objs, o);
      data := PWrite(data, h.offset, stored);
      index := PWrite(index, h.number, [h]);
    }

    // zero_filemark_count
    method ZeroFilemarkCount()
      requires |meta| >= 1
      modifies this`filemarks, this`filemarkCount, this`meta
      ensures filemarks == [] && filemarkCount == 0 && meta == [0]
    {
      filemarks := [];
      filemarkCount := 0;
      RewriteMetaFile();
    }

    method Unlink()
      modifies this`present, this`index, this`data, this`meta
      ensures !present
    {
      present, index, data, meta := false, [], [], [];
    }

    method Create()
      requires Absent()
      modifies this`present, this`index, this`data, this`meta, this`filemarkCount
      ensures Agrees([], false)
    {
      filemarkCount := 0;
      present, index, data, meta := true, [], [], [0];
    }

    // What a load asks of the three files, a lenient one less.
    ghost predicate Acceptable(errorCheck: bool)
      reads this
    {
      && |meta| >= 1
      && (errorCheck ==> |meta| == 1 + meta[0])
      && (|meta| >= 1 + meta[0] && meta[0] > 0 && |index| > 0 ==> meta[meta[0]] < |index|)
      && (errorCheck ==> |data| == LastOffset())
    }

    // Where the last header says the data file ends.
    ghost function LastOffset(): nat
      reads this
    {
      if |index| == 0 then 0 else index[|index| - 1].offset + index[|index| - 1].diskSize
    }

    // Any load asks for a count of filemarks, and for the last of them to lie in
    // an index that is not empty; a strict one also for exactly so many words as
    // are counted, and for a data file that ends where the last entry does.
    lemma AcceptanceMeans(strict: bool)
      ensures |meta| == 0 ==> !Acceptable(strict)
      ensures |meta| > 0 && 0 < meta[0] < |meta| && |index| > 0 && meta[meta[0]] >= |index| ==> !Acceptable(strict)
      ensures |meta| > 0 && |meta| != 1 + meta[0] ==> !Acceptable(true)
      ensures index == [] && data != [] ==> !Acceptable(true)
      ensures |index| > 0 && |data| != index[|index| - 1].offset + index[|index| - 1].diskSize ==> !Acceptable(true)
    {
    }

    // Reading the map off the meta file. A map that is cut short there leaves
    // the entries it does not reach unread.
    method ReadMap()
      requires |meta| >= 1
      modifies this`filemarks
      ensures filemarkCount <= |filemarks|
      ensures |meta| >= 1 + filemarkCount ==> filemarks[..filemarkCount] == meta[1..1 + filemarkCount]
    {
      var junk := Junk(RoundUp(filemarkCount));
      var stored := meta[1..];
      var io := if |stored| < filemarkCount then |stored| else filemarkCount;
      filemarks := stored[..io] + junk[io..];
    }

    // 0 for files a load accepts and nothing else, but that a map cut short in
    // its file is judged by what the allocator returned for its end.
    ghost predicate Deserves(rc: int, errorCheck: bool)
      reads this
    {
      && (rc == 0 || rc == 2) && (rc == 0 ==> Acceptable(errorCheck))
      && (|meta| == 0 || errorCheck || |meta| >= 1 + meta[0] ==> (rc == 0 <==> Acceptable(errorCheck)))
    }

    // load_partition: 0 when the partition was accepted.
    method Load(errorCheck: bool) returns (rc: int)
      requires present
      modifies this`filemarks, this`filemarkCount, this`eodBlock, this`eodOffset
      ensures Deserves(rc, errorCheck)
      ensures rc == 0 ==> eodBlock == |index| && eodOffset == LastOffset()
      ensures rc == 0 ==> filemarkCount == meta[0] <= |filemarks|
      ensures rc == 0 && |meta| >= 1 + meta[0] ==> filemarks[..filemarkCount] == meta[1..1 + meta[0]]
      ensures eodBlock == old(eodBlock) || eodBlock == |index|
    {
      rc := 2;
      if |meta| >= 1 {
        filemarkCount := meta[0];
        if !errorCheck || |meta| == 1 + filemarkCount {
          ReadMap();
          eodBlock := |index|;
          assert |meta| >= 1 + filemarkCount && filemarkCount > 0 ==>
            filemarks[..filemarkCount][filemarkCount - 1] == meta[1..1 + filemarkCount][filemarkCount - 1];
          if filemarkCount == 0 || eodBlock == 0 || filemarks[filemarkCount - 1] < eodBlock {
            eodOffset := if eodBlock == 0 then 0 else index[eodBlock - 1].offset + index[eodBlock - 1].diskSize;
            if !errorCheck || |data| == eodOffset {
              rc := 0;
            }
          }
        }
      }
    }

    // The scan of the map for the first filemark at or after a block.
    method FirstMark(block: nat, ghost objs: seq<Object>) returns (i: nat)
      requires Mapped(objs) && block <= |objs|
      ensures i == MarksBefore(objs, block) <= filemarkCount
    {
      i := 0;
      while i < filemarkCount && filemarks[i] < block
        invariant i <= filemarkCount
        invariant forall j :: 0 <= j < i ==> filemarks[j] < block
      {
        i := i + 1;
      }
      assert forall j :: 0 <= j < filemarkCount ==> Marks(objs)[j] == filemarks[j];
      FirstMarkAtOrAfter(objs, block, i);
    }

    // The scan from the top of the map for the last filemark before a block;
    // -1 when there is none.
    method LastMark(block: nat, ghost objs: seq<Object>) returns (i: int)
      requires Mapped(objs) && block <= |objs|
      ensures -1 <= i < filemarkCount
      ensures i + 1 == MarksBefore(objs, block)
    {
      i := filemarkCount - 1;
      while i >= 0 && filemarks[i] >= block
        invariant -1 <= i < filemarkCount
        invariant forall j :: i < j < filemarkCount ==> filemarks[j] >= block
      {
        i := i - 1;
      }
      assert forall j :: 0 <= j < filemarkCount ==> Marks(objs)[j] == filemarks[j];
      MarksSorted(objs);
      FirstMarkAtOrAfter(objs, block, i + 1);
    }
  }

  method Junk(n: nat) returns (r: seq<nat>)
    ensures |r| == n
  {
    r := *;
    if |r| != n {
      r := seq(n, _ => 0);
    }
  }

  class Cartridge {
    const parts: seq<Partition>
    var numPartitions: nat
    var loaded: bool
    var pos: Header
    var okToWrite: bool
    var medium: MediumType
    ghost var tapes: seq<seq<Object>>

    // The partition the head is in.
    function Here(): Partition
      requires pos.partition < |parts|
      reads this
    {
      parts[pos.partition]
    }

    ghost predicate Shape()
      reads this
    {
      && |parts| == MAX_PARTITIONS
      && 1 <= numPartitions <= MAX_PARTITIONS
      && |tapes| == numPartitions
      && pos.partition < MAX_PARTITIONS
      && (forall i :: 0 <= i < |parts| ==> parts[i].id == i)
      && (forall i :: 0 <= i < |tapes| ==> |tapes[i]| <= MAX_BLOCK + 1)
    }

    // Every partition's files hold its tape, and every partition's memory
    // agrees with them; the end-of-data pair of one partition may be stale.
    ghost predicate Parts(stale: int)
      requires Shape()
      reads this, parts
    {
      && (forall i :: 0 <= i < numPartitions ==> parts[i].Agrees(tapes[i], i == stale))
      && (forall i :: numPartitions <= i < |parts| ==> parts[i].Absent())
    }

    ghost predicate Ready()
      reads this, parts
    {
      && Shape() && Parts(-1) && loaded
      && pos.partition < numPartitions
      && pos.number <= |tapes[pos.partition]|
      && pos == HeaderAt(tapes[pos.partition], pos.number, pos.partition)
    }

    // Nothing in the drive: the files hold the tapes, memory is cleared.
    ghost predicate Closed()
      reads this, parts
    {
      && Shape() && !loaded
      && (forall i :: 0 <= i < numPartitions ==> parts[i].OnDisk(tapes[i]))
      && (forall i :: numPartitions <= i < |parts| ==> !parts[i].present && parts[i].filemarkCount == 0)
      && (forall i :: 0 <= i < |parts| ==> parts[i].eodBlock == 0 && parts[i].eodOffset == 0)
    }

    ghost predicate Valid()
      reads this, parts
    {
      if loaded then Ready() else Closed()
    }

    ghost function Abs(): Cart
      reads this
    {
      Cart(tapes, pos.partition, pos.number, okToWrite, medium)
    }

    // The current partition is being written: its end-of-data pair is stale.
    ghost predicate Writing(offset: nat)
      reads this, parts
    {
      && Shape() && loaded && pos.partition < numPartitions && Parts(pos.partition)
      && offset == |Bytes(tapes[pos.partition])|
    }

    // Everything from the head on is cut off but the head still shows the old header.
    ghost predicate Cut()
      reads this, parts
    {
      Writing(pos.offset) && pos.number == |tapes[pos.partition]|
    }

    method MakeEodHeader(number: nat, offset: nat)
      requires pos.partition < |parts|
      modifies this`pos, this`okToWrite, Here()`eodBlock, Here()`eodOffset
      ensures pos == EodHeader(offset, number, old(pos.partition))
      ensures Here().eodBlock == number && Here().eodOffset == offset && okToWrite
    {
      pos := EodHeader(offset, number, pos.partition);
      parts[pos.partition].eodBlock := number;
      parts[pos.partition].eodOffset := offset;
      okToWrite := true;
    }

    // read_header, of the partition the head is in.
    method ReadHeader(number: nat, ghost objs: seq<Object>) returns (rc: int)
      requires pos.partition < |parts| && Here().id == pos.partition && Here().Agrees(objs, false)
      modifies this`pos, this`okToWrite, Here()`eodBlock, Here()`eodOffset
      ensures old(Here()).Agrees(objs, false) && rc == 0
      ensures
        if number > |objs| then pos == old(pos) && okToWrite == old(okToWrite)
        else pos == HeaderAt(objs, number, old(pos.partition)) &&
             pos.number == number && pos.partition == old(pos.partition) &&
             okToWrite == (number == |objs| || old(okToWrite))
    {
      var p := parts[pos.partition];
      rc := 0;
      if number > p.eodBlock {
      } else if number == p.eodBlock {
        MakeEodHeader(p.eodBlock, p.eodOffset);
      } else if number < |p.index| {
        HeadersPrefix(objs, number, pos.partition);
        pos := p.index[number];
      } else {
        rc := -1;
      }
    }

    // read_header from a loaded cartridge.
    method Position(number: nat)
      requires Ready()
      modifies this`pos, this`okToWrite, Here()`eodBlock, Here()`eodOffset
      ensures Ready() && Abs() == Seek(old(Abs()), number)
    {
      assert Here().Agrees(tapes[pos.partition], false);
      var _ := ReadHeader(number, tapes[pos.partition]);
    }

    // check_for_overwrite: at end of data there is nothing to cut.
    method CheckForOverwrite()
      requires Ready()
      modifies this`tapes, Here()`index, Here()`data, Here()`meta, Here()`filemarkCount
      ensures Cut() && pos == old(pos)
      ensures tapes == old(Abs().Put(Abs().Objs()[..Abs().pos]).tapes)
    {
      var p := parts[pos.partition];
      ghost var objs := tapes[pos.partition];
      HeadersPrefix(objs, pos.number, pos.partition);
      assert p.Agrees(objs, false);
      if pos.blockType.B_EOD? {
        assert objs[..pos.number] == objs;
      } else {
        p.CutAt(pos.number, pos.offset, objs);
      }
      tapes := tapes[pos.partition := objs[..pos.number]];
    }

    // The end of every write: the head moves to the new end of data.
    method Seal(number: nat, offset: nat)
      requires Writing(offset) && number == |tapes[pos.partition]|
      modifies this`pos, this`okToWrite, Here()`eodBlock, Here()`eodOffset
      ensures Ready() && Abs() == old(Abs()).(pos := number, ok := true)
    {
      assert Here().Agrees(tapes[pos.partition], true);
      MakeEodHeader(number, offset);
      assert Here().Agrees(tapes[pos.partition], false);
    }

    // One turn of the loop of write_filemarks: one header and one map entry.
    method WriteMark(number: nat, offset: nat)
      requires Writing(offset) && number == |tapes[pos.partition]| <= MAX_BLOCK
      requires pos == MakeHeader(Filemark, offset, pos.number, pos.partition)
      modifies this`tapes, this`pos, Here()`index, Here()`filemarks, Here()`filemarkCount, Here()`meta
      ensures Writing(offset) && pos == old(pos).(number := number)
      ensures tapes == old(tapes[pos.partition := tapes[pos.partition] + [Filemark]])
    {
      ghost var objs := tapes[pos.partition];
      pos := pos.(number := number);
      assert Here().Agrees(objs, true);
      Here().AppendMark(pos, objs);
      BytesAppend(objs, Filemark);
      tapes := tapes[pos.partition := objs + [Filemark]];
    }

    // The loop of write_filemarks.
    method WriteMarks(count: nat) returns (number: nat)
      requires Cut() && pos.number + count <= MAX_BLOCK + 1
      modifies this`tapes, this`pos, Here()`index, Here()`filemarks, Here()`filemarkCount, Here()`meta
      ensures Writing(old(pos.offset)) && pos.partition == old(pos.partition)
      ensures tapes == old(tapes[pos.partition := tapes[pos.partition] + Repeat(Filemark, count)])
      ensures number == |tapes[pos.partition]|
    {
      ghost var id, base, start := pos.partition, tapes[pos.partition], tapes;
      number := pos.number;
      var offset := pos.offset;
      pos := Header(offset, B_FILEMARK, number, 0, 0, Raw, 0, pos.partition);
      var left := count;
      OneMore(base, 0);
      while left > 0
        invariant 0 <= left <= count && number == |base| + count - left
        invariant Writing(offset) && pos == MakeHeader(Filemark, offset, pos.number, id)
        invariant tapes == start[id := base + Repeat(Filemark, count - left)]
      {
        NextMark(number, offset, start, base, count - left);
        left, number := left - 1, number + 1;
      }
    }

    // One turn of the loop, after n filemarks.
    method NextMark(number: nat, offset: nat, ghost start: seq<seq<Object>>, ghost base: seq<Object>, ghost n: nat)
      requires Writing(offset) && pos == MakeHeader(Filemark, offset, pos.number, pos.partition)
      requires number == |base| + n <= MAX_BLOCK && |start| == |tapes|
      requires tapes == start[pos.partition := base + Repeat(Filemark, n)]
      modifies this`tapes, this`pos, Here()`index, Here()`filemarks, Here()`filemarkCount, Here()`meta
      ensures Writing(offset) && pos == MakeHeader(Filemark, offset, pos.number, old(pos.partition))
      ensures tapes == start[pos.partition := base + Repeat(Filemark, n + 1)]
    {
      OneMoreMark(start, pos.partition, base, n);
      WriteMark(number, offset);
    }

    method WriteFilemarks(count: nat) returns (s: Status)
      requires Valid()
      requires loaded ==> pos.number + count <= MAX_BLOCK + 1
      modifies this`tapes, this`pos, this`okToWrite, Here()
      ensures Valid() && loaded == old(loaded)
      ensures s == if loaded then Good else NotReady
      ensures Abs() ==
        if !loaded || count == 0 then old(Abs()) else Written(old(Abs()), Repeat(Filemark, count))
    {
      if !loaded {
        return NotReady;
      }
      if count == 0 {
        return Good;
      }
      ghost var before := Abs();
      CheckForOverwrite();
      CutThenAppend(before, Abs(), Repeat(Filemark, count));
      var offset := pos.offset;
      var number := WriteMarks(count);
      Seal(number, offset);
      return Good;
    }

    // The data file write failed part way: cut the partial block off again.
    method UndoPartialBlock(buffer: seq<byte>)
      requires Cut()
      modifies this`pos, this`okToWrite, Here()`data, Here()`eodBlock, Here()`eodOffset
      ensures Ready() && Abs() == old(Abs()).(ok := true)
    {
      var p := parts[pos.partition];
      ghost var objs := tapes[pos.partition];
      assert p.Agrees(objs, true);
      p.data := PWrite(p.data, pos.offset, buffer);
      p.data := Truncate(p.data, pos.offset);
      assert p.data == Bytes(objs);
      Seal(pos.number, pos.offset);
    }

    // Both files take the block.
    method PutBlock(stored: seq<byte>, size: nat, packing: Packing, crc: nat)
      requires Cut() && pos.number <= MAX_BLOCK
      modifies this`tapes, this`pos, this`okToWrite, Here()`data, Here()`index, Here()`eodBlock, Here()`eodOffset
      ensures Ready()
      ensures Abs() == old(Abs().Put(tapes[pos.partition] + [Block(stored, size, packing, crc)])
                              .(pos := pos.number + 1, ok := true))
    {
      var p := parts[pos.partition];
      ghost var objs, o := tapes[pos.partition], Block(stored, size, packing, crc);
      assert p.Agrees(objs, true);
      pos := Header(pos.offset, B_DATA, pos.number, size, |stored|, packing, crc, pos.partition);
      p.AppendBlock(pos, stored, o, objs);
      BytesAppend(objs, o);
      tapes := tapes[pos.partition := objs + [o]];
      Seal(pos.number + 1, pos.offset + |stored|);
    }

    // write_tape_block on a loaded cartridge.
    method WriteAtHead(stored: seq<byte>, size: nat, packing: Packing, crc: nat, fault: Fault)
      requires Ready() && pos.number <= MAX_BLOCK
      requires fault.Short? ==> fault.bytes <= |stored|
      modifies this`tapes, this`pos, this`okToWrite, Here()
      ensures Ready()
      ensures Abs() == BlockWritten(old(Abs()), Block(stored, size, packing, crc), fault)
    {
      ghost var before := Abs();
      CheckForOverwrite();
      CutThenAppend(before, Abs(), if fault.Short? then [] else [Block(stored, size, packing, crc)]);
      ghost var objs := tapes[pos.partition];
      if fault.Short? {
        assert objs + [] == objs && tapes[pos.partition := objs] == tapes;
        UndoPartialBlock(stored[..fault.bytes]);
      } else {
        PutBlock(stored, size, packing, crc);
      }
    }

    // write_tape_block: size is the length of the uncompressed data; the disk
    // block is compSize bytes when the data was compressed and size when not.
    method WriteTapeBlock(buffer: seq<byte>, size: nat, compSize: nat, packing: Packing, crc: nat, fault: Fault)
      returns (s: Status)
      requires Valid()
      requires |buffer| >= DiskSize(size, compSize)
      requires fault.Short? ==> fault.bytes <= DiskSize(size, compSize)
      modifies this`tapes, this`pos, this`okToWrite, Here()
      ensures Valid() && loaded == old(loaded)
      ensures Abs() ==
        if loaded then BlockWritten(old(Abs()), OnTape(buffer, size, compSize, packing, crc), fault) else old(Abs())
      ensures s ==
        if !loaded then NotReady
        else if old(pos.number) > MAX_BLOCK then TooManyBlocks
        else if fault.Short? then WriteError
        else Good
    {
      if !loaded {
        s := NotReady;
      } else if pos.number > MAX_BLOCK {
        // Only the end of data can be this far, and there is nothing to cut there.
        s := TooManyBlocks;
      } else {
        var stored := buffer[..DiskSize(size, compSize)];
        WriteAtHead(stored, size, if compSize > 0 then packing else Raw, crc, fault);
        s := if fault.Short? then WriteError else Good;
      }
    }

    // The bytes of a stretch of the data file.
    method CopyOut(buf: array<byte>, offset: nat, n: nat)
      requires pos.partition < |parts|
      requires n <= buf.Length && offset + n <= |Here().data|
      modifies buf
      ensures buf[..n] == Here().data[offset..offset + n]
      ensures forall i :: n <= i < buf.Length ==> buf[i] == old(buf[i])
    {
      var data := parts[pos.partition].data;
      forall i | 0 <= i < n {
        buf[i] := data[offset + i];
      }
    }

    // read_tape_block at an object.
    method ReadUnderHead(buf: array<byte>, size: nat) returns (n: nat)
      requires Ready() && size <= buf.Length && !Abs().AtEod()
      modifies this`pos, this`okToWrite, Here()`eodBlock, Here()`eodOffset, buf
      ensures Ready() && Abs() == Seek(old(Abs()), old(pos.number) + 1)
      ensures var stored := Stored(old(Abs()).Objs()[old(pos.number)]);
        n == (if |stored| > size then size else |stored|) && buf[..n] == stored[..n]
      ensures forall i :: n <= i < buf.Length ==> buf[i] == old(buf[i])
    {
      ghost var objs, k := tapes[pos.partition], pos.number;
      HeadersPrefix(objs, k, pos.partition);
      assert Here().Agrees(objs, false);
      n := if pos.diskSize > size then size else pos.diskSize;
      BytesAt(objs, k, n);
      CopyOut(buf, pos.offset, n);
      assert buf[..n] == Stored(objs[k])[..n];
      Position(pos.number + 1);
    }

    // read_tape_block: at most size bytes of the block under the head.
    method ReadTapeBlock(buf: array<byte>, size: nat) returns (s: Status, n: nat)
      requires Valid() && size <= buf.Length
      modifies this`pos, this`okToWrite, Here()`eodBlock, Here()`eodOffset, buf
      ensures Valid() && loaded == old(loaded)
      ensures s == if !loaded then NotReady else if old(Abs()).AtEod() then EndOfData(0) else Good
      ensures Abs() == if s.Good? then Seek(old(Abs()), old(pos.number) + 1) else old(Abs())
      ensures !s.Good? ==> n == 0
      ensures s.Good? ==>
        var stored := Stored(old(Abs()).Objs()[old(pos.number)]);
        n == (if |stored| > size then size else |stored|) && buf[..n] == stored[..n]
      ensures forall i :: n <= i < buf.Length ==> buf[i] == old(buf[i])
    {
      s, n := NotReady, 0;
      if loaded {
        HeadersPrefix(tapes[pos.partition], pos.number, pos.partition);
        if pos.blockType.B_EOD? {
          s := EndOfData(0);
        } else {
          n := ReadUnderHead(buf, size);
          s := Good;
        }
      }
    }

    method RewindTape() returns (s: Status)
      requires Valid()
      modifies this`pos, this`okToWrite, Here()
      ensures Valid() && loaded == old(loaded)
      ensures s == if loaded then Good else NotReady
      ensures Abs() == if loaded then Rewound(old(Abs())) else old(Abs())
    {
      if !loaded {
        return NotReady;
      }
      ghost var objs := tapes[pos.partition];
      Position(0);
      assert Here().Agrees(objs, false);
      HeadersPrefix(objs, 0, pos.partition);
      match medium {
        case CleanMedium => okToWrite := false;
        case WormMedium =>
          okToWrite := pos.blockType.B_EOD? || (pos.blockType.B_FILEMARK? && Here().eodBlock == 1);
          assert okToWrite == Blank(objs);
        case DataMedium => okToWrite := true;
      }
      return Good;
    }

    method PositionToEod() returns (s: Status)
      requires Valid()
      modifies this`pos, this`okToWrite, Here()
      ensures Valid() && loaded == old(loaded)
      ensures s == if loaded then Good else NotReady
      ensures Abs() == if loaded then AtEndOfData(old(Abs())) else old(Abs())
    {
      if !loaded {
        return NotReady;
      }
      assert Here().Agrees(tapes[pos.partition], false);
      Position(Here().eodBlock);
      if medium.WormMedium? {
        okToWrite := true;
      }
      return Good;
    }

    method PositionToBlock(number: nat) returns (s: Status)
      requires Valid()
      modifies this`pos, this`okToWrite, Here()
      ensures Valid() && loaded == old(loaded)
      ensures Abs() == if loaded then ToBlock(old(Abs()), number) else old(Abs())
      ensures s ==
        if !loaded then NotReady
        else if number > |old(Abs()).Objs()| then PastEndOfData
        else Good
    {
      if !loaded {
        return NotReady;
      }
      if medium.WormMedium? {
        okToWrite := false;
      }
      assert Here().Agrees(tapes[pos.partition], false);
      if number > Here().eodBlock {
        s := PositionToEod();
        s := PastEndOfData;
      } else if number == 0 {
        s := RewindTape();
      } else {
        Position(number);
        s := Good;
      }
    }

    // How every spacing function ends.
    method Move(plan: Plan) returns (s: Status)
      requires Ready()
      modifies this`pos, this`okToWrite, Here()
      ensures Ready()
      ensures Abs() == Moved(old(Abs()), plan) && s == MovedStatus(old(Abs()), plan)
    {
      if medium.WormMedium? {
        okToWrite := false;
      }
      match plan {
        case GoTo(number) =>
          s := PositionToBlock(number);
        case PlaceAt(number, status) =>
          s := status;
          Position(number);
      }
    }

    method PlanBlocksForw(count: nat) returns (plan: Plan)
      requires Ready()
      ensures plan == BlocksForwPlan(Abs().Objs(), pos.number, count)
    {
      var p := Here();
      assert p.Agrees(tapes[pos.partition], false);
      var target := ForwTarget(pos.number, count);
      var i := p.FirstMark(pos.number, tapes[pos.partition]);
      assert i < p.filemarkCount ==> p.filemarks[i] == p.filemarks[..p.filemarkCount][i];
      if i < p.filemarkCount {
        if p.filemarks[i] >= target {
          return GoTo(target);
        }
        return PlaceAt(p.filemarks[i] + 1, MarkSeen((target - pos.number + 1) % TWO_32));
      }
      if target > p.eodBlock {
        return PlaceAt(p.eodBlock, EndOfData(target - p.eodBlock));
      }
      return GoTo(target);
    }

    method PositionBlocksForw(count: nat) returns (s: Status)
      requires Valid()
      modifies this`pos, this`okToWrite, Here()
      ensures Valid() && loaded == old(loaded)
      ensures Abs() == if loaded then BlocksForwLanding(old(Abs()), count) else old(Abs())
      ensures s == if loaded then BlocksForwAnswer(old(Abs()), count) else NotReady
    {
      s := NotReady;
      if loaded {
        var plan := PlanBlocksForw(count);
        s := Move(plan);
      }
    }

    // A target before the beginning of the tape is a huge block number: the
    // test for a negative target never succeeds.
    method PlanBlocksBack(count: nat) returns (plan: Plan)
      requires Ready()
      ensures plan == BlocksBackPlan(Abs().Objs(), pos.number, count)
    {
      MarkBackLookup(tapes[pos.partition], pos.number);
      var p := Here();
      assert p.Agrees(tapes[pos.partition], false);
      var target := BackTarget(pos.number, count);
      var i := p.LastMark(pos.number, tapes[pos.partition]);
      assert i >= 0 ==> p.filemarks[i] == p.filemarks[..p.filemarkCount][i];
      if i >= 0 && p.filemarks[i] >= target {
        return PlaceAt(p.filemarks[i], MarkSeen((pos.number - target) % TWO_32));
      }
      return GoTo(target);
    }

    method PositionBlocksBack(count: nat) returns (s: Status)
      requires Valid()
      modifies this`pos, this`okToWrite, Here()
      ensures Valid() && loaded == old(loaded)
      ensures Abs() == if loaded then BlocksBackLanding(old(Abs()), count) else old(Abs())
      ensures s == if loaded then BlocksBackAnswer(old(Abs()), count) else NotReady
    {
      s := NotReady;
      if loaded {
        var plan := PlanBlocksBack(count);
        s := Move(plan);
      }
    }

    method PlanMarksForw(count: nat) returns (plan: Plan)
      requires Ready() && count < TWO_63
      ensures var c := Abs();
        plan == if count == 0 then ZeroMarksPlan(c.Objs(), c.pos) else MarksForwPlan(c.Objs(), c.pos, count)
    {
      var p := Here();
      assert p.Agrees(tapes[pos.partition], false);
      var i := p.FirstMark(pos.number, tapes[pos.partition]);
      MarksFew(tapes[pos.partition]);
      var k := MarkIndex(i, count);
      if k < p.filemarkCount {
        plan := GoTo(p.filemarks[..p.filemarkCount][k] + 1);
      } else {
        plan := PlaceAt(p.eodBlock, EndOfData((i + count - p.filemarkCount) % TWO_32));
      }
      if count == 0 {
        MarkBackLookup(tapes[pos.partition], pos.number);
      }
    }

    method PositionFilemarksForw(count: nat) returns (s: Status)
      requires Valid()
      requires count < TWO_63
      modifies this`pos, this`okToWrite, Here()
      ensures Valid() && loaded == old(loaded)
      ensures Abs() ==
        if !loaded then old(Abs())
        else if count > 0 then SpaceMarksForw(old(Abs()), count)
        else Moved(old(Abs()), ZeroMarksPlan(old(Abs()).Objs(), old(pos.number)))
      ensures s ==
        if !loaded then NotReady
        else if count > 0 then MarksForwStatus(old(Abs()), count)
        else MovedStatus(old(Abs()), ZeroMarksPlan(old(Abs()).Objs(), old(pos.number)))
    {
      s := NotReady;
      if loaded {
        if count > 0 {
          MarksForwByMap(Abs(), count);
        }
        var plan := PlanMarksForw(count);
        s := Move(plan);
      }
    }

    method PlanMarksBack(count: nat) returns (plan: Plan)
      requires Ready() && 1 <= count
      ensures plan == MarksBackPlan(Abs().Objs(), pos.number, count)
    {
      var p := Here();
      assert p.Agrees(tapes[pos.partition], false);
      var i := p.LastMark(pos.number, tapes[pos.partition]);
      if i + 1 >= count {
        assert p.filemarks[i - count + 1] == p.filemarks[..p.filemarkCount][i - count + 1];
        return GoTo(p.filemarks[i - count + 1]);
      }
      return PlaceAt(0, Beginning((count - i - 1) % TWO_32));
    }

    // The callers space back by at least one filemark.
    method PositionFilemarksBack(count: nat) returns (s: Status)
      requires Valid()
      requires 1 <= count <= TWO_63
      modifies this`pos, this`okToWrite, Here()
      ensures Valid() && loaded == old(loaded)
      ensures Abs() == if loaded then SpaceMarksBack(old(Abs()), count) else old(Abs())
      ensures s == if loaded then MarksBackStatus(old(Abs()), count) else NotReady
    {
      s := NotReady;
      if loaded {
        MarksBackByMap(Abs(), count);
        var plan := PlanMarksBack(count);
        s := Move(plan);
      }
    }

    // count_filemarks: how many filemarks lie before a block, -1 for all.
    method CountFilemarks(block: int) returns (n: nat)
      requires Ready()
      ensures n ==
        if block == -1 || block > |Abs().Objs()| then |Marks(Abs().Objs())|
        else MarksBefore(Abs().Objs(), if block < 0 then 0 else block)
    {
      var p := Here();
      ghost var objs := tapes[pos.partition];
      assert p.Agrees(objs, false);
      if block == -1 {
        return p.filemarkCount;
      }
      n := 0;
      while n < p.filemarkCount && p.filemarks[n] < block
        invariant n <= p.filemarkCount
        invariant forall j :: 0 <= j < n ==> p.filemarks[j] < block
      {
        n := n + 1;
      }
      assert forall j :: 0 <= j < p.filemarkCount ==> Marks(objs)[j] == p.filemarks[j];
      MarksSorted(objs);
      if block <= |objs| {
        FirstMarkAtOrAfter(objs, if block < 0 then 0 else block, n);
      }
    }

    // change_partition, to a partition the cartridge has.
    method ChangePartition(partition: nat)
      requires Ready() && partition < numPartitions
      modifies this`pos, this`okToWrite, parts[partition]
      ensures Ready() && Abs() == Changed(old(Abs()), partition)
    {
      pos := pos.(partition := partition);
      assert Here().Agrees(tapes[partition], false);
      var _ := ReadHeader(0, tapes[partition]);
    }

    // zero_filemark_count, with nothing left on the tape.
    method ForgetMarks()
      requires Cut() && tapes[pos.partition] == []
      modifies Here()`filemarks, Here()`filemarkCount, Here()`meta
      ensures Cut()
    {
      assert Here().Agrees([], true);
      Here().ZeroFilemarkCount();
      assert Here().Agrees([], true);
    }

    // format_partition; its callers see to it that the head is at the beginning.
    method FormatPartition() returns (s: Status)
      requires Valid() && (loaded ==> pos.number == 0)
      modifies this`tapes, this`pos, this`okToWrite, Here()
      ensures Valid() && loaded == old(loaded)
      ensures s == if loaded then Good else NotReady
      ensures Abs() == if loaded then Written(old(Abs()), []) else old(Abs())
    {
      s := NotReady;
      if loaded {
        ghost var before := Abs();
        CheckForOverwrite();
        CutAtStart(before, Abs());
        ForgetMarks();
        Seal(pos.number, pos.offset);
        s := Good;
      }
    }

    // One turn of the erasing loop of format_tape: change to a partition,
    // format it, remove its files.
    method ErasePartition(k: nat, ghost objs: seq<Object>)
      requires k < |parts| && parts[k].Agrees(objs, false)
      requires forall i :: 0 <= i < |parts| ==> parts[i].id == i
      modifies this`pos, this`okToWrite, parts[k]
      ensures parts[k].Absent() && pos.partition == k && okToWrite
      ensures forall i :: 0 <= i < |parts| && i != k ==> unchanged(parts[i])
    {
      var p := parts[k];
      pos := pos.(partition := k);
      var _ := ReadHeader(0, objs);
      HeadersPrefix(objs, 0, k);
      pos := pos.(number := 0, offset := 0);
      if !pos.blockType.B_EOD? {
        assert objs[..0] == [];
        p.CutAt(0, 0, objs);
      }
      p.ZeroFilemarkCount();
      MakeEodHeader(0, 0);
      p.Unlink();
    }

    method EraseAll()
      requires Ready()
      modifies this`pos, this`okToWrite, parts
      ensures forall i :: 0 <= i < |parts| ==> parts[i].Absent()
      ensures okToWrite
    {
      var k := 0;
      while k < |parts| && parts[k].present
        invariant 0 <= k <= numPartitions
        invariant forall i :: 0 <= i < k ==> parts[i].Absent()
        invariant forall i :: k <= i < numPartitions ==> parts[i].Agrees(tapes[i], false)
        invariant forall i :: numPartitions <= i < |parts| ==> parts[i].Absent()
        invariant forall i :: k <= i < numPartitions ==> parts[i].present
        invariant k > 0 ==> okToWrite
      {
        ErasePartition(k, tapes[k]);
        k := k + 1;
      }
    }

    method CreateAll(count: nat)
      requires count <= |parts| && forall i :: 0 <= i < |parts| ==> parts[i].id == i && parts[i].Absent()
      modifies parts
      ensures forall i :: 0 <= i < count ==> parts[i].Agrees([], false)
      ensures forall i :: count <= i < |parts| ==> parts[i].Absent()
    {
      for j := 0 to count
        invariant forall i :: 0 <= i < j ==> parts[i].Agrees([], false)
        invariant forall i :: j <= i < |parts| ==> parts[i].Absent()
      {
        parts[j].Create();
      }
    }

    // format_tape, with the number of partitions the caller asks for.
    method FormatTape(count: nat)
      requires Ready() && 1 <= count <= MAX_PARTITIONS
      modifies this, parts
      ensures Ready() && numPartitions == count && Abs() == Formatted(old(Abs()), count)
    {
      EraseAll();
      numPartitions := count;
      CreateAll(count);
      tapes := Repeat([], count);
      pos := pos.(partition := 0);
      var _ := ReadHeader(0, []);
    }

    // unload_tape: write the maps out, close the files, forget what is in memory.
    method UnloadTape()
      requires Ready()
      modifies this`loaded, this`pos, this`okToWrite, parts
      ensures Closed()
    {
      var j := 0;
      while j < numPartitions
        invariant 0 <= j <= numPartitions && pos.partition < MAX_PARTITIONS
        invariant forall i :: 0 <= i < j ==> parts[i].OnDisk(tapes[i])
        invariant forall i :: j <= i < numPartitions ==> parts[i].Agrees(tapes[i], false)
        invariant forall i :: numPartitions <= i < |parts| ==> parts[i].Absent()
      {
        UnloadPartition(j, tapes[j]);
        j := j + 1;
      }
      ClearEnds();
      loaded := false;
    }

    // Every end-of-data pair is cleared.
    method ClearEnds()
      requires forall i :: 0 <= i < |parts| ==> parts[i].id == i
      requires forall i :: 0 <= i < numPartitions <= |parts| ==> i < |tapes| && parts[i].OnDisk(tapes[i])
      modifies parts
      ensures forall i :: 0 <= i < numPartitions <= |parts| ==> parts[i].OnDisk(tapes[i])
      ensures forall i :: 0 <= i < |parts| ==>
        parts[i].eodBlock == 0 && parts[i].eodOffset == 0 &&
        parts[i].present == old(parts[i].present) && parts[i].filemarkCount == old(parts[i].filemarkCount)
    {
      for j := 0 to |parts|
        invariant forall i :: 0 <= i < numPartitions <= |parts| ==> parts[i].OnDisk(tapes[i])
        invariant forall i :: 0 <= i < j ==> parts[i].eodBlock == 0 && parts[i].eodOffset == 0
        invariant forall i :: 0 <= i < |parts| ==>
          parts[i].present == old(parts[i].present) && parts[i].filemarkCount == old(parts[i].filemarkCount)
      {
        parts[j].eodBlock, parts[j].eodOffset := 0, 0;
      }
    }

    method UnloadPartition(j: nat, ghost objs: seq<Object>)
      requires j < |parts| && parts[j].id == j && parts[j].Agrees(objs, false)
      modifies this`pos, this`okToWrite, parts[j]
      ensures parts[j].OnDisk(objs) && pos.partition == j
    {
      pos := pos.(partition := j);
      var _ := ReadHeader(0, objs);
      parts[j].RewriteMetaFile();
      parts[j].filemarks := [];
    }

    // Nothing in memory; the files may be anything.
    ghost predicate Out()
      reads this, parts
    {
      && |parts| == MAX_PARTITIONS && !loaded && pos.partition < MAX_PARTITIONS
      && forall i :: 0 <= i < |parts| ==> parts[i].id == i && parts[i].eodBlock == 0 && parts[i].eodOffset == 0
    }

    // The data files of the first k partitions are there, and no others' right
    // behind them.
    ghost predicate Leading(k: nat)
      reads this, parts
    {
      k <= |parts| && (forall i :: 0 <= i < k ==> parts[i].present) && (k < |parts| ==> !parts[k].present)
    }

    // The first n partitions' files hold their tapes.
    ghost predicate SoundFiles(n: nat)
      reads this, parts
    {
      n <= |tapes| && n <= |parts| && forall i :: 0 <= i < n ==> parts[i].OnDisk(tapes[i])
    }

    ghost predicate Restored(rcs: seq<int>, n: nat)
      reads `tapes, parts
    {
      n <= |rcs| && n <= |tapes| && n <= |parts| &&
      forall i :: 0 <= i < n ==> rcs[i] == 0 && parts[i].Agrees(tapes[i], false)
    }

    // load_tape, of files in any state: every partition whose data file is there
    // is loaded, whatever load_partition says of it, and the answer is 0; rcs
    // collects what load_partition said. Without any, nothing is open. errorCheck is set where the file
    // bypass_error_check exists, there are data files for count partitions.
    method LoadFiles(errorCheck: bool, ghost count: nat, ghost sound: nat) returns (r: int, rcs: seq<int>)
      requires Out() && Leading(count) && sound <= count && SoundFiles(sound)
      modifies this`numPartitions, this`loaded, this`pos, this`okToWrite
      modifies parts`filemarks, parts`filemarkCount, parts`eodBlock, parts`eodOffset
      ensures r == 0 && loaded == (count > 0) && numPartitions == |rcs| == count <= |parts| && Judged(rcs, errorCheck)
      ensures tapes == old(tapes) && medium == old(medium) && Restored(rcs, sound)
      ensures forall i :: count <= i < |parts| ==> unchanged(parts[i])
      ensures pos == FirstHeader(parts[0]) && okToWrite == (old(okToWrite) || parts[0].eodBlock == 0)
    {
      rcs := LoadAll(errorCheck, count, sound);
      r := OpenFirst(|rcs|);
    }

    // What load_partition says of each partition is what its files deserve.
    ghost predicate Judged(rcs: seq<int>, errorCheck: bool)
      requires |rcs| <= |parts|
      reads parts
    {
      forall i :: 0 <= i < |rcs| ==> parts[i].Deserves(rcs[i], errorCheck)
    }

    function FirstHeader(p: Partition): Header
      reads p
    {
      if p.eodBlock == 0 || |p.index| == 0 then EodHeader(p.eodOffset, 0, p.id) else p.index[0]
    }

    // With count partitions, to the first one and its first header.
    method OpenFirst(count: nat) returns (rc: int)
      requires |parts| > 0 && parts[0].id == 0
      requires parts[0].eodBlock == 0 || parts[0].eodBlock == |parts[0].index|
      modifies this`numPartitions, this`loaded, this`pos, this`okToWrite
      ensures numPartitions == count && loaded == (count > 0)
      ensures rc == 0 && pos == FirstHeader(parts[0]) && okToWrite == (old(okToWrite) || parts[0].eodBlock == 0)
    {
      numPartitions := count;
      loaded := count > 0;
      pos := pos.(partition := 0);
      var p := parts[0];
      rc := 0;
      if p.eodBlock == 0 {
        pos := EodHeader(p.eodOffset, 0, p.id);
        okToWrite := true;
      } else {
        pos := p.index[0];
      }
    }

    // The loop of load_tape, over the partitions whose data file is there.
    method LoadAll(errorCheck: bool, ghost count: nat, ghost sound: nat) returns (rcs: seq<int>)
      requires Out() && Leading(count) && sound <= count && SoundFiles(sound)
      modifies parts`filemarks, parts`filemarkCount, parts`eodBlock, parts`eodOffset
      ensures |rcs| == count <= |parts| && Judged(rcs, errorCheck) && Restored(rcs, sound)
      ensures |parts| > 0 && (parts[0].eodBlock == 0 || parts[0].eodBlock == |parts[0].index|)
      ensures forall i :: count <= i < |parts| ==> unchanged(parts[i])
    {
      rcs := [];
      while |rcs| < |parts| && parts[|rcs|].present
        invariant |rcs| <= count && Judged(rcs, errorCheck) && Restored(rcs, Least(|rcs|, sound))
        invariant parts[0].eodBlock == 0 || parts[0].eodBlock == |parts[0].index|
        invariant forall i :: |rcs| <= i < |parts| ==> unchanged(parts[i])
      {
        rcs := LoadNext(parts[|rcs|], rcs, errorCheck, sound);
      }
    }

    method LoadNext(p: Partition, rcs: seq<int>, errorCheck: bool, ghost sound: nat) returns (more: seq<int>)
      requires |parts| == MAX_PARTITIONS && |rcs| < |parts| && forall i :: 0 <= i < |parts| ==> parts[i].id == i
      requires Judged(rcs, errorCheck) && Restored(rcs, Least(|rcs|, sound))
      requires p == parts[|rcs|] && p.present && p.eodBlock == 0
      requires |rcs| < sound ==> |rcs| < |tapes| && p.OnDisk(tapes[|rcs|])
      modifies p`filemarks, p`filemarkCount, p`eodBlock, p`eodOffset
      ensures |more| == |rcs| + 1 && Judged(more, errorCheck) && Restored(more, Least(|more|, sound))
      ensures p.eodBlock == 0 || p.eodBlock == |p.index|
      ensures forall i :: 0 <= i < |parts| && i != |rcs| ==> unchanged(parts[i])
    {
      var k := |rcs|;
      var rc := LoadOne(p, if k < |tapes| then tapes[k] else [], errorCheck);
      forall i | 0 <= i < k
        ensures parts[i].Deserves(rcs[i], errorCheck)
        ensures i < sound ==> parts[i].Agrees(tapes[i], false)
      {
        assert unchanged(parts[i]);
        assert old(parts[i].Deserves(rcs[i], errorCheck));
        assert i < sound ==> old(parts[i].Agrees(tapes[i], false));
      }
      more := rcs + [rc];
    }

    method LoadOne(p: Partition, ghost objs: seq<Object>, errorCheck: bool) returns (rc: int)
      requires p.present && p.eodBlock == 0
      modifies p`filemarks, p`filemarkCount, p`eodBlock, p`eodOffset
      ensures p.Deserves(rc, errorCheck) && (p.eodBlock == 0 || p.eodBlock == |p.index|)
      ensures old(p.OnDisk(objs)) ==> rc == 0 && p.Agrees(objs, false)
    {
      if p.OnDisk(objs) {
        AcceptedBack(p, objs);
      }
      rc := p.Load(errorCheck);
    }

    // load_tape, of the files of a cartridge that was closed well.
    method LoadTape(errorCheck: bool) returns (rcs: seq<int>)
      requires Closed()
      modifies this, parts
      ensures Ready() && tapes == old(tapes) && medium == old(medium)
      ensures rcs == Repeat(0, numPartitions)
      ensures Abs() == Changed(old(Abs()), 0)
    {
      var r;
      r, rcs := LoadFiles(errorCheck, numPartitions, numPartitions);
      assert parts[0].Agrees(tapes[0], false);
      HeadersPrefix(tapes[0], 0, 0);
      assert tapes[0][..0] == [];
    }

    // Taking the cartridge out and putting it back gives the same tapes, the
    // same filemark maps and the same ends of data, with the head at the
    // beginning of partition 0.
    method Reload() returns (rcs: seq<int>)
      requires Ready()
      modifies this, parts
      ensures Ready() && tapes == old(tapes) && numPartitions == old(numPartitions)
      ensures rcs == Repeat(0, numPartitions)
      ensures forall i :: 0 <= i < numPartitions ==>
        var p := parts[i];
        && p.index == old(p.index) && p.data == old(p.data) && p.meta == old(p.meta)
        && p.eodBlock == old(p.eodBlock) && p.eodOffset == old(p.eodOffset)
        && p.filemarkCount == old(p.filemarkCount)
        && p.filemarks[..p.filemarkCount] == old(p.filemarks[..p.filemarkCount])
      ensures pos.partition == 0 && pos.number == 0
    {
      assert forall i :: 0 <= i < numPartitions ==> parts[i].Agrees(tapes[i], false);
      UnloadTape();
      rcs := LoadTape(true);
      assert forall i :: 0 <= i < numPartitions ==> parts[i].Agrees(tapes[i], false);
    }

    // create_tape: one empty partition, not in a drive.
    constructor (medium: MediumType)
      ensures Closed() && tapes == [[]] && this.medium == medium
      ensures forall p :: p in parts ==> fresh(p)
    {
      var p0 := new Partition(0);
      p0.Create();
      var p1 := new Partition(1);
      var p2 := new Partition(2);
      var p3 := new Partition(3);
      parts := [p0, p1, p2, p3];
      numPartitions, loaded, okToWrite := 1, false, false;
      pos := EodHeader(0, 0, 0);
      this.medium := medium;
      tapes := [[]];
    }
  }

  lemma OneMoreMark(tapes: seq<seq<Object>>, id: nat, base: seq<Object>, n: nat)
    requires id < |tapes|
    ensures var before := tapes[id := base + Repeat(Filemark, n)];
      before[id := before[id] + [Filemark]] == tapes[id := base + Repeat(Filemark, n + 1)]
  {
    OneMore(base, n);
    UpdateTwice(tapes, id, base + Repeat(Filemark, n), base + Repeat(Filemark, n) + [Filemark]);
  }

  // A data file of one byte more than the index accounts for: the checks are
  // asked for and refuse it, and the tape is loaded.
  method LoadLongDataFile() returns (r: int, rcs: seq<int>)
    ensures r == 0 && rcs == [2]
  {
    var c := new Cartridge(DataMedium);
    assert |c.parts| == MAX_PARTITIONS && forall i :: 0 <= i < |c.parts| ==> c.parts[i] in c.parts;
    var p := c.parts[0];
    p.data := p.data + [0];
    r, rcs := c.LoadFiles(true, 1, 0);
  }

  // A map that counts a filemark it does not hold.
  method LoadShortMap() returns (r: int, rcs: seq<int>)
    ensures r == 0 && rcs == [2]
  {
    var c := new Cartridge(DataMedium);
    assert |c.parts| == MAX_PARTITIONS && forall i :: 0 <= i < |c.parts| ==> c.parts[i] in c.parts;
    var p := c.parts[0];
    p.meta := [1];
    r, rcs := c.LoadFiles(true, 1, 0);
  }

  // A map with a filemark at block 1 beside an index of one entry, which even a
  // lenient load refuses.
  method LoadMarkBehindIndex(strict: bool) returns (r: int, rcs: seq<int>)
    ensures r == 0 && rcs == [2]
  {
    var c := new Cartridge(DataMedium);
    assert |c.parts| == MAX_PARTITIONS && forall i :: 0 <= i < |c.parts| ==> c.parts[i] in c.parts;
    var p := c.parts[0];
    p.meta, p.index := [1, 1], [MakeHeader(Filemark, 0, 0, 0)];
    r, rcs := c.LoadFiles(strict, 1, 0);
  }

  function DiskSize(size: nat, compSize: nat): nat {
    if compSize > 0 then compSize else size
  }

  function OnTape(buffer: seq<byte>, size: nat, compSize: nat, packing: Packing, crc: nat): Object
    requires |buffer| >= DiskSize(size, compSize)
  {
    Block(buffer[..DiskSize(size, compSize)], size, if compSize > 0 then packing else Raw, crc)
  }

  // The files of a well-kept partition pass every check of a strict load, and
  // what they say is what memory held.
  lemma AcceptedBack(p: Partition, objs: seq<Object>)
    requires p.OnDisk(objs)
    ensures p.Acceptable(true) && p.LastOffset() == |Bytes(objs)|
    ensures p.meta[1..] == Marks(objs)
  {
    MarksSorted(objs);
    MarksFew(objs);
    if objs != [] {
      var n := |objs| - 1;
      HeadersPrefix(objs, n, p.id);
      assert objs[..n] + [objs[n]] == objs;
      BytesAppend(objs[..n], objs[n]);
    }
  }
}
