// Reading and writing one block of data: compression, checksum, the capacity
// limit with its warnings, and reads of the wrong length.

module BlockIo {
  import opened Files
  import opened Tape
  import opened CartModel
  import opened Cartridge

  // The compressors and the checksum are foreign code.
  datatype Codec = Codec(
    lzo: seq<byte> -> seq<byte>, unlzo: seq<byte> -> seq<byte>,
    zlib: seq<byte> -> seq<byte>, unzlib: seq<byte> -> seq<byte>,
    crc: seq<byte> -> nat)
  {
    function Pack(packing: Packing, x: seq<byte>): seq<byte> {
      match packing
      case Raw => x
      case Lzo => lzo(x)
      case Zlib => zlib(x)
    }

    function Unpack(packing: Packing, x: seq<byte>): seq<byte> {
      match packing
      case Raw => x
      case Lzo => unlzo(x)
      case Zlib => unzlib(x)
    }

    ghost predicate Lossless() {
      && (forall x :: unlzo(lzo(x)) == x && |lzo(x)| > 0)
      && (forall x :: unzlib(zlib(x)) == x && |zlib(x)| > 0)
    }

    // What is put on the tape for a block of data.
    function Encode(packing: Packing, x: seq<byte>): Object {
      Block(Pack(packing, x), |x|, packing, crc(x))
    }

    // A block whose bytes and header agree.
    predicate Intact(o: Object)
      requires o.Block?
    {
      |Unpack(o.packing, o.stored)| == o.size && crc(Unpack(o.packing, o.stored)) == o.crc
    }

    // What a read that asks for size bytes gets of a block.
    function Delivered(o: Object, size: nat): seq<byte>
      requires o.Block?
    {
      var x := Unpack(o.packing, o.stored);
      if !Intact(o) then [] else if |x| > size then x[..size] else x
    }
  }

  datatype Drive = Drive(
    packing: Packing, codec: Codec, writeProtect: bool, capacities: seq<nat>,
    earlyWarning: bool, earlyWarningSize: nat, progEarlyWarning: bool, progEarlyWarningSize: nat)
  {
    function Capacity(partition: nat): nat {
      if partition < |capacities| then capacities[partition] else 0
    }

    function EarlyWarningAt(partition: nat): nat {
      if Capacity(partition) > earlyWarningSize then Capacity(partition) - earlyWarningSize else 0
    }

    function ProgEarlyWarningAt(partition: nat): nat {
      if EarlyWarningAt(partition) > progEarlyWarningSize then EarlyWarningAt(partition) - progEarlyWarningSize else 0
    }

    function Warning(partition: nat, offset: nat): WriteSense {
      if earlyWarning && offset >= EarlyWarningAt(partition) then EarlyWarning
      else if progEarlyWarning && offset >= ProgEarlyWarningAt(partition) then ProgEarlyWarning
      else Quiet
    }
  }

  // NotWritten: refused for its block number, with no sense data set.
  datatype WriteSense = Quiet | VolumeOverflow | EarlyWarning | ProgEarlyWarning | WriteFailed | NotWritten

  datatype ReadSense =
    | NothingToReport
    | IncorrectLength(information: int)
    | FilemarkRead(information: int)
    | EndOfDataRead(information: int)
    | ReadError

  function Offset(c: Cart): nat
    requires c.Ok()
  {
    |Bytes(c.Objs()[..c.pos])|
  }

  // ---------------------------------------------------------- writing

  function WriteOutcome(d: Drive, c: Cart, x: seq<byte>, fault: Fault): (r: (Cart, WriteSense))
    requires c.Ok()
    ensures r.0.Succeeds(c)
  {
    if Offset(c) >= d.Capacity(c.cur) then (c, VolumeOverflow)
    else
      var after := BlockWritten(c, d.codec.Encode(d.packing, x), fault);
      if c.AtEod() && c.pos > MAX_BLOCK then (after, NotWritten)
      else if fault.Short? then (after, WriteFailed)
      else if x == [] then (after, Quiet)
      else (after, d.Warning(c.cur, Offset(after)))
  }

  lemma OffsetOfHead(cart: Cartridge)
    requires cart.Ready()
    ensures cart.pos.offset == Offset(cart.Abs())
  {
    var objs := cart.tapes[cart.pos.partition];
    HeadersPrefix(objs, cart.pos.number, cart.pos.partition);
    assert cart.pos.number == |objs| ==> objs[..cart.pos.number] == objs;
  }

  // writeBlock_nocomp, writeBlock_lzo and writeBlock_zlib.
  method WritePacked(cart: Cartridge, packing: Packing, codec: Codec, x: seq<byte>, fault: Fault) returns (s: Status)
    requires cart.Ready() && codec.Lossless()
    requires fault.Short? ==> fault.bytes <= |codec.Pack(packing, x)|
    modifies cart, cart.parts
    ensures cart.Ready()
    ensures cart.Abs() == BlockWritten(old(cart.Abs()), codec.Encode(packing, x), fault)
    ensures s ==
      if old(cart.pos.number) > MAX_BLOCK then TooManyBlocks
      else if fault.Short? then WriteError
      else Good
  {
    var packed := codec.Pack(packing, x);
    assert packed[..|packed|] == packed;
    var compSize := if packing.Raw? then 0 else |packed|;
    assert OnTape(packed, |x|, compSize, packing, codec.crc(x)) == codec.Encode(packing, x);
    s := cart.WriteTapeBlock(packed, |x|, compSize, packing, codec.crc(x), fault);
  }

  method WriteBlock(cart: Cartridge, d: Drive, x: seq<byte>, fault: Fault) returns (written: nat, s: WriteSense)
    requires cart.Ready() && d.codec.Lossless()
    requires fault.Short? ==> fault.bytes <= |d.codec.Pack(d.packing, x)|
    modifies cart, cart.parts
    ensures cart.Ready()
    ensures (cart.Abs(), s) == WriteOutcome(d, old(cart.Abs()), x, fault)
    ensures written == if s.VolumeOverflow? || s.WriteFailed? || s.NotWritten? then 0 else |x|
  {
    OffsetOfHead(cart);
    written, s := 0, VolumeOverflow;
    if cart.pos.offset < d.Capacity(cart.pos.partition) {
      var status := WritePacked(cart, d.packing, d.codec, x, fault);
      if status.TooManyBlocks? {
        s := NotWritten;
      } else if !status.Good? {
        s := WriteFailed;
      } else if x == [] {
        s := Quiet;
      } else {
        OffsetOfHead(cart);
        written, s := |x|, d.Warning(cart.pos.partition, cart.pos.offset);
      }
    }
  }

  // ---------------------------------------------------------- reading

  // A block of another length than asked for is reported, a longer one only
  // when it is not suppressed.
  function LengthSense(request: nat, size: nat, sili: bool): ReadSense {
    if size < request then IncorrectLength(request - size)
    else if !sili && request < size then IncorrectLength(request - size)
    else NothingToReport
  }

  // What a read of one block does and delivers.
  function ReadOutcome(codec: Codec, c: Cart, request: nat, sili: bool): (r: (Cart, seq<byte>, ReadSense))
    requires c.Ok()
    ensures r.0.Succeeds(c)
  {
    if request == 0 then (c, [], NothingToReport)
    else if c.AtEod() then (c, [], EndOfDataRead(request))
    else
      match c.Objs()[c.pos]
      case Filemark => (SpaceBlocksForw(c, 1), [], FilemarkRead(request))
      case Block(_, size, _, _) =>
        var o := c.Objs()[c.pos];
        var got := codec.Delivered(o, request);
        (Seek(c, c.pos + 1), got,
         if codec.Intact(o) then LengthSense(request, size, sili) else ReadError)
  }

  // The block under the head, uncompressed, into bounce[..size]; nothing when
  // the block and its header disagree.
  method Fetch(cart: Cartridge, codec: Codec, bounce: array<byte>) returns (ok: bool)
    requires cart.Ready() && !cart.Abs().AtEod()
    requires cart.Abs().Objs()[cart.pos.number].Block?
    requires bounce.Length >= cart.pos.size
    modifies cart, cart.parts, bounce
    ensures cart.Ready() && cart.Abs() == Seek(old(cart.Abs()), old(cart.pos.number) + 1)
    ensures var o := old(cart.Abs()).Objs()[old(cart.pos.number)];
      && ok == codec.Intact(o)
      && (ok ==> o.size <= bounce.Length && bounce[..o.size] == codec.Unpack(o.packing, o.stored))
    ensures forall i :: old(cart.pos.size) <= i < bounce.Length ==> bounce[i] == old(bounce[i])
  {
    ghost var c := cart.Abs();
    ghost var o := c.Objs()[c.pos];
    HeadersPrefix(c.Objs(), c.pos, c.cur);
    var h := cart.pos;
    var cbuf := new byte[h.diskSize];
    var status, got := cart.ReadTapeBlock(cbuf, h.diskSize);
    assert cbuf[..got] == o.stored;
    var x := codec.Unpack(h.packing, cbuf[..got]);
    ok := |x| == h.size && codec.crc(x) == h.crc;
    if ok {
      forall i | 0 <= i < |x| {
        bounce[i] := x[i];
      }
    }
  }

  method CopyHead(buf: array<byte>, from: array<byte>, n: nat)
    requires n <= buf.Length && n <= from.Length && buf != from
    modifies buf
    ensures buf[..n] == from[..n]
    ensures forall i :: n <= i < buf.Length ==> buf[i] == old(buf[i])
  {
    forall i | 0 <= i < n {
      buf[i] := from[i];
    }
  }

  // A block longer than the request goes through a bounce buffer.
  method ReadBounced(cart: Cartridge, codec: Codec, buf: array<byte>, request: nat) returns (ok: bool, n: nat)
    requires cart.Ready() && 0 < request <= buf.Length
    requires !cart.Abs().AtEod() && cart.Abs().Objs()[cart.pos.number].Block?
    requires request < cart.pos.size == cart.Abs().Objs()[cart.pos.number].size
    modifies cart, cart.parts, buf
    ensures cart.Ready() && cart.Abs() == Seek(old(cart.Abs()), old(cart.pos.number) + 1)
    ensures var o := old(cart.Abs()).Objs()[old(cart.pos.number)];
      ok == codec.Intact(o) && n <= request && buf[..n] == codec.Delivered(o, request)
    ensures ok ==> forall i :: n <= i < buf.Length ==> buf[i] == old(buf[i])
  {
    var size := cart.pos.size;
    var bounce := new byte[size + 4];
    ok := Fetch(cart, codec, bounce);
    n := 0;
    if ok {
      n := request;
      CopyHead(buf, bounce, request);
      assert bounce[..request] == bounce[..size][..request];
    }
  }

  method ReadData(cart: Cartridge, codec: Codec, buf: array<byte>, request: nat) returns (ok: bool, n: nat)
    requires cart.Ready() && 0 < request <= buf.Length
    requires !cart.Abs().AtEod() && cart.Abs().Objs()[cart.pos.number].Block?
    modifies cart, cart.parts, buf
    ensures cart.Ready() && cart.Abs() == Seek(old(cart.Abs()), old(cart.pos.number) + 1)
    ensures var o := old(cart.Abs()).Objs()[old(cart.pos.number)];
      ok == codec.Intact(o) && n <= request && buf[..n] == codec.Delivered(o, request)
    ensures ok ==> forall i :: n <= i < buf.Length ==> buf[i] == old(buf[i])
  {
    ghost var c := cart.Abs();
    HeadersPrefix(c.Objs(), c.pos, c.cur);
    var size := cart.pos.size;
    if size > request {
      ok, n := ReadBounced(cart, codec, buf, request);
    } else {
      ok := Fetch(cart, codec, buf);
      n := if ok then size else 0;
    }
  }

  // readBlock, without logical block protection.
  method ReadBlock(cart: Cartridge, codec: Codec, buf: array<byte>, request: nat, sili: bool)
    returns (n: nat, s: ReadSense)
    requires cart.Ready() && request <= buf.Length
    modifies cart, cart.parts, buf
    ensures cart.Ready() && n <= request
    ensures var (after, got, sense) := ReadOutcome(codec, old(cart.Abs()), request, sili);
      cart.Abs() == after && buf[..n] == got && s == sense
    ensures !s.ReadError? ==> forall i :: n <= i < buf.Length ==> buf[i] == old(buf[i])
  {
    ghost var c := cart.Abs();
    HeadersPrefix(c.Objs(), c.pos, c.cur);
    n, s := 0, NothingToReport;
    if request > 0 {
      match cart.pos.blockType {
        case B_EOD =>
          s := EndOfDataRead(request);
        case B_FILEMARK =>
          BlocksForwByMap(c, 1);
          var _ := cart.PositionBlocksForw(1);
          s := FilemarkRead(request);
        case B_DATA =>
          var size := cart.pos.size;
          var ok;
          ok, n := ReadData(cart, codec, buf, request);
          s := if ok then LengthSense(request, size, sili) else ReadError;
      }
    }
  }
}
