// The commands an initiator sends to the drive, and runs of them.

module Commands {
  import opened Basics
  import opened Files
  import opened Tape
  import opened CartModel
  import opened Cartridge
  import opened BlockIo

  datatype Answer =
    | Fine
    | InvalidField
    | CleaningCartridge
    | OverwriteAttempt
    | WriteProtected
    | NotAtBeginning
    | WriteEnded(write: WriteSense)
    | ReadEnded(read: ReadSense)
    | SpaceEnded(status: Status)
    | EndOfPartition

  datatype Command =
    | Write(data: seq<byte>, size: nat, count: nat, failAt: nat, bytes: nat)
    | WriteMarks(count: nat)
    | Read(request: nat, count: nat, fixed: bool, sili: bool)
    | SpaceBlocks(distance: int)
    | SpaceMarks(distance: int)
    | SpaceEnd
    | Locate(partition: nat, number: nat)
    | Rewind
    | Erase

  // check_restrictions sets the write flag and says whether writing may start.
  function Checked(c: Cart, protect: bool): Cart
    requires c.Ok()
  {
    var ok :=
      match c.medium
      case CleanMedium => false
      case WormMedium => c.AtEod() || c.ok
      case DataMedium => true;
    c.(ok := ok && !protect)
  }

  predicate GoesOn(s: WriteSense) {
    s.Quiet? || s.NotWritten?
  }

  // WRITE(6): every block is taken from the start of the transferred data, so
  // all count blocks are x. failAt is the block whose data does not reach the
  // medium whole. The first thing to report ends the command.
  function BlocksWritten(d: Drive, c: Cart, x: seq<byte>, count: nat, failAt: nat, bytes: nat): (r: (Cart, WriteSense))
    requires c.Ok()
    ensures r.0.Succeeds(c)
    decreases count
  {
    if count == 0 then (c, Quiet)
    else
      var (after, s) := WriteOutcome(d, c, x, if failAt == 0 then Short(bytes) else Sound);
      if GoesOn(s) then BlocksWritten(d, after, x, count - 1, if failAt == 0 then 0 else failAt - 1, bytes)
      else (after, s)
  }

  // READ(6) of count blocks. Each thing to report replaces the one before; only
  // a fixed length read that delivers nothing stops, with the number of blocks
  // not read as its information.
  function BlocksRead(codec: Codec, c: Cart, request: nat, count: nat, fixed: bool, sili: bool, last: ReadSense):
    (r: (Cart, seq<byte>, ReadSense))
    requires c.Ok()
    ensures r.0.Succeeds(c)
    decreases count
  {
    if count == 0 then (c, [], last)
    else
      var (after, got, s) := ReadOutcome(codec, c, request, sili);
      var now := Later(last, s);
      if got == [] && fixed then (after, [], WithInformation(now, count))
      else
        var (end, more, r) := BlocksRead(codec, after, request, count - 1, fixed, sili, now);
        (end, got + more, r)
  }

  function Later(last: ReadSense, s: ReadSense): ReadSense {
    if s.NothingToReport? then last else s
  }

  function WithInformation(s: ReadSense, n: nat): ReadSense {
    match s
    case IncorrectLength(_) => IncorrectLength(n)
    case FilemarkRead(_) => FilemarkRead(n)
    case EndOfDataRead(_) => EndOfDataRead(n)
    case _ => s
  }

  // Why a READ(6) does not start.
  function ReadRefusal(c: Cart, fixed: bool, sili: bool): Option<Answer> {
    if fixed && sili then Some(InvalidField)
    else if c.medium.CleanMedium? then Some(CleaningCartridge)
    else None
  }

  // What the transport layer and the 32 bit block numbers guarantee of a command.
  predicate Posed(d: Drive, c: Cart, cmd: Command)
    requires c.Ok()
  {
    match cmd
    case Write(data, size, count, failAt, bytes) =>
      size <= |data| && bytes <= |d.codec.Pack(d.packing, data[..size])|
    case WriteMarks(count) => c.pos + count <= MAX_BLOCK + 1
    case Read(_, count, fixed, _) => fixed || count == 1
    case SpaceBlocks(n) => -(TWO_63 as int) <= n < TWO_63
    case SpaceMarks(n) => -(TWO_63 as int) <= n < TWO_63
    case Locate(partition, _) => partition < |c.tapes|
    case _ => true
  }

  // WRITE FILEMARKS goes ahead at the beginning of a WORM tape whatever the
  // restrictions say.
  predicate MarksGoAhead(d: Drive, c: Cart)
    requires c.Ok()
  {
    Checked(c, d.writeProtect).ok || (c.medium.WormMedium? && c.pos == 0)
  }

  // SPACE does nothing for a count of zero.
  function SpacedBlocks(c: Cart, n: int): (r: Cart)
    requires c.Ok()
    ensures r.Succeeds(c)
  {
    if n == 0 then c else if n > 0 then BlocksForwLanding(c, n) else BlocksBackLanding(c, -n)
  }

  function BlocksAnswer(c: Cart, n: int): Status
    requires c.Ok()
  {
    if n == 0 then Good else if n > 0 then BlocksForwAnswer(c, n) else BlocksBackAnswer(c, -n)
  }

  function SpacedMarks(c: Cart, n: int): (r: Cart)
    requires c.Ok()
    ensures r.Succeeds(c)
  {
    if n == 0 then c else if n > 0 then SpaceMarksForw(c, n) else SpaceMarksBack(c, -n)
  }

  function MarksAnswer(c: Cart, n: int): Status
    requires c.Ok()
  {
    if n == 0 then Good else if n > 0 then MarksForwStatus(c, n) else MarksBackStatus(c, -n)
  }

  function Exec(d: Drive, c: Cart, cmd: Command): (r: Cart)
    requires c.Ok() && Posed(d, c, cmd)
    ensures r.Succeeds(c)
  {
    match cmd
    case Write(data, size, count, failAt, bytes) =>
      var r := Checked(c, d.writeProtect);
      if r.ok then BlocksWritten(d, r, data[..size], count, failAt, bytes).0 else r
    case WriteMarks(count) =>
      var r := Checked(c, d.writeProtect);
      if count > 0 && MarksGoAhead(d, c) then Written(r, Repeat(Filemark, count)) else r
    case Read(request, count, fixed, sili) =>
      if ReadRefusal(c, fixed, sili).Some? then c
      else BlocksRead(d.codec, c, request, count, fixed, sili, NothingToReport).0
    case SpaceBlocks(n) => SpacedBlocks(c, n)
    case SpaceMarks(n) => SpacedMarks(c, n)
    case SpaceEnd => AtEndOfData(c)
    case Locate(partition, number) => ToBlock(Changed(c, partition), number % TWO_32)
    case Rewind => Rewound(c)
    case Erase =>
      var r := Checked(c, d.writeProtect);
      if r.ok && c.pos == 0 then Written(r, []) else r
  }

  ghost predicate AllPosed(d: Drive, c: Cart, cmds: seq<Command>)
    requires c.Ok()
    decreases |cmds|
  {
    cmds == [] || (Posed(d, c, cmds[0]) && AllPosed(d, Exec(d, c, cmds[0]), cmds[1..]))
  }

  // A run of commands on the simple tape.
  function Run(d: Drive, c: Cart, cmds: seq<Command>): (r: Cart)
    requires c.Ok() && AllPosed(d, c, cmds)
    ensures r.Succeeds(c)
    decreases |cmds|
  {
    if cmds == [] then c else Run(d, Exec(d, c, cmds[0]), cmds[1..])
  }

  // Why writing may not start.
  function Refusal(c: Cart): Answer
    requires c.Ok()
  {
    if c.medium.CleanMedium? then CleaningCartridge
    else if c.medium.WormMedium? && !Checked(c, false).ok then OverwriteAttempt
    else WriteProtected
  }

  // What the initiator is told, and the data it gets. Filemarks that are
  // written in spite of the restrictions are still reported as refused.
  function Reply(d: Drive, c: Cart, cmd: Command): (Answer, seq<byte>)
    requires c.Ok() && Posed(d, c, cmd)
  {
    var checked := Checked(c, d.writeProtect);
    match cmd
    case Write(data, size, count, failAt, bytes) =>
      (if checked.ok then WriteEnded(BlocksWritten(d, checked, data[..size], count, failAt, bytes).1)
       else Refusal(c), [])
    case WriteMarks(count) =>
      (if count > 0 && MarksGoAhead(d, c) && Offset(Exec(d, c, cmd)) >= d.Capacity(c.cur) then EndOfPartition
       else if checked.ok then Fine
       else Refusal(c), [])
    case Read(request, count, fixed, sili) =>
      if ReadRefusal(c, fixed, sili).Some? then (ReadRefusal(c, fixed, sili).value, [])
      else
        var (_, data, s) := BlocksRead(d.codec, c, request, count, fixed, sili, NothingToReport);
        (ReadEnded(s), data)
    case SpaceBlocks(n) =>
      (SpaceEnded(BlocksAnswer(c, n)), [])
    case SpaceMarks(n) =>
      (SpaceEnded(MarksAnswer(c, n)), [])
    case Locate(partition, number) =>
      (SpaceEnded(if number % TWO_32 > |c.tapes[partition]| then PastEndOfData else Good), [])
    case Erase =>
      (if !checked.ok then Refusal(c) else if c.pos != 0 then NotAtBeginning else Fine, [])
    case _ => (SpaceEnded(Good), [])
  }

  // What a run is told, command by command.
  function Replies(d: Drive, c: Cart, cmds: seq<Command>): (r: seq<(Answer, seq<byte>)>)
    requires c.Ok() && AllPosed(d, c, cmds)
    ensures |r| == |cmds|
    decreases |cmds|
  {
    if cmds == [] then [] else [Reply(d, c, cmds[0])] + Replies(d, Exec(d, c, cmds[0]), cmds[1..])
  }

  // ------------------------------------------------------- the drive

  method CheckRestrictions(cart: Cartridge, protect: bool) returns (a: Answer)
    requires cart.Ready()
    modifies cart`okToWrite
    ensures cart.Ready() && cart.Abs() == Checked(old(cart.Abs()), protect)
    ensures a.Fine? <==> cart.okToWrite
    ensures !a.Fine? ==> a == Refusal(old(cart.Abs()))
  {
    a := CheckMedium(cart);
    if cart.okToWrite && protect {
      cart.okToWrite := false;
      a := WriteProtected;
    }
  }

  method CheckMedium(cart: Cartridge) returns (a: Answer)
    requires cart.Ready()
    modifies cart`okToWrite
    ensures cart.Ready() && cart.Abs() == Checked(old(cart.Abs()), false)
    ensures a == if cart.okToWrite then Fine else Refusal(old(cart.Abs()))
  {
    a := Fine;
    ghost var c := cart.Abs();
    HeadersPrefix(c.Objs(), c.pos, c.cur);
    match cart.medium {
      case CleanMedium =>
        a := CleaningCartridge;
        cart.okToWrite := false;
      case WormMedium =>
        if cart.pos.blockType.B_EOD? {
          cart.okToWrite := true;
        }
        if !cart.okToWrite {
          a := OverwriteAttempt;
        }
      case DataMedium =>
        cart.okToWrite := true;
    }
  }

  method DoWrite(cart: Cartridge, d: Drive, data: seq<byte>, size: nat, count: nat, failAt: nat, bytes: nat)
    returns (a: Answer)
    requires cart.Ready() && d.codec.Lossless() && Posed(d, cart.Abs(), Write(data, size, count, failAt, bytes))
    modifies cart, cart.parts
    ensures cart.Ready()
    ensures cart.Abs() == Exec(d, old(cart.Abs()), Write(data, size, count, failAt, bytes))
    ensures a == Reply(d, old(cart.Abs()), Write(data, size, count, failAt, bytes)).0
  {
    a := CheckRestrictions(cart, d.writeProtect);
    if cart.okToWrite {
      var s := WriteBlocks(cart, d, data, size, count, failAt, bytes);
      a := WriteEnded(s);
    }
  }

  // The loop of WRITE(6).
  method WriteBlocks(cart: Cartridge, d: Drive, data: seq<byte>, size: nat, count: nat, failAt: nat, bytes: nat)
    returns (s: WriteSense)
    requires cart.Ready() && d.codec.Lossless() && size <= |data|
    requires bytes <= |d.codec.Pack(d.packing, data[..size])|
    modifies cart, cart.parts
    ensures cart.Ready()
    ensures (cart.Abs(), s) == BlocksWritten(d, old(cart.Abs()), data[..size], count, failAt, bytes)
  {
    s := Quiet;
    var k: nat, fail: nat := 0, failAt;
    while k < count
      invariant 0 <= k <= count && cart.Ready()
      invariant BlocksWritten(d, old(cart.Abs()), data[..size], count, failAt, bytes) ==
                BlocksWritten(d, cart.Abs(), data[..size], count - k, fail, bytes)
      invariant k == count ==> s.Quiet?
    {
      var written;
      written, s := WriteBlock(cart, d, data[..size], if fail == 0 then Short(bytes) else Sound);
      if !GoesOn(s) {
        return;
      }
      s := Quiet;
      fail := if fail == 0 then 0 else fail - 1;
      k := k + 1;
    }
  }

  method DoWriteFilemarks(cart: Cartridge, d: Drive, count: nat) returns (a: Answer)
    requires cart.Ready() && Posed(d, cart.Abs(), WriteMarks(count))
    modifies cart, cart.parts
    ensures cart.Ready() && cart.Abs() == Exec(d, old(cart.Abs()), WriteMarks(count))
    ensures a == Reply(d, old(cart.Abs()), WriteMarks(count)).0
  {
    a := CheckRestrictions(cart, d.writeProtect);
    if !a.Fine? {
      if !(cart.medium.WormMedium? && cart.pos.number == 0) {
        return;
      }
    }
    var _ := cart.WriteFilemarks(count);
    OffsetOfHead(cart);
    if count > 0 && cart.pos.offset >= d.Capacity(cart.pos.partition) {
      a := EndOfPartition;
    }
  }

  method DoErase(cart: Cartridge, d: Drive) returns (a: Answer)
    requires cart.Ready()
    modifies cart, cart.parts
    ensures cart.Ready() && cart.Abs() == Exec(d, old(cart.Abs()), Erase)
    ensures a == Reply(d, old(cart.Abs()), Erase).0
  {
    a := CheckRestrictions(cart, d.writeProtect);
    if !a.Fine? {
      return;
    }
    if cart.pos.number != 0 {
      return NotAtBeginning;
    }
    var _ := cart.FormatPartition();
  }

  // resp_space, for blocks and for filemarks.
  method DoSpaceBlocks(cart: Cartridge, distance: int) returns (s: Status)
    requires cart.Ready() && -(TWO_63 as int) <= distance < TWO_63
    modifies cart, cart.parts
    ensures cart.Ready() && cart.Abs() == SpacedBlocks(old(cart.Abs()), distance)
    ensures s == BlocksAnswer(old(cart.Abs()), distance)
  {
    ghost var c := cart.Abs();
    s := Good;
    if distance > 0 {
      s := cart.PositionBlocksForw(distance);
      assert cart.Abs() == BlocksForwLanding(c, distance) && s == BlocksForwAnswer(c, distance);
    } else if distance < 0 {
      s := cart.PositionBlocksBack(-distance);
    }
  }

  method DoSpaceMarks(cart: Cartridge, distance: int) returns (s: Status)
    requires cart.Ready() && -(TWO_63 as int) <= distance < TWO_63
    modifies cart, cart.parts
    ensures cart.Ready() && cart.Abs() == SpacedMarks(old(cart.Abs()), distance)
    ensures s == MarksAnswer(old(cart.Abs()), distance)
  {
    s := Good;
    if distance > 0 {
      s := cart.PositionFilemarksForw(distance);
    } else if distance < 0 {
      s := cart.PositionFilemarksBack(-distance);
    }
  }

  method DoLocate(cart: Cartridge, partition: nat, number: nat) returns (s: Status)
    requires cart.Ready() && partition < cart.numPartitions
    modifies cart, cart.parts
    ensures cart.Ready() && cart.Abs() == ToBlock(Changed(old(cart.Abs()), partition), number % TWO_32)
    ensures s == if number % TWO_32 > |old(cart.Abs()).tapes[partition]| then PastEndOfData else Good
  {
    cart.ChangePartition(partition);
    s := cart.PositionToBlock(number % TWO_32);
  }

  method DoRead(cart: Cartridge, d: Drive, request: nat, count: nat, fixed: bool, sili: bool)
    returns (a: Answer, data: seq<byte>)
    requires cart.Ready() && (fixed || count == 1)
    modifies cart, cart.parts
    ensures cart.Ready() && cart.Abs() == Exec(d, old(cart.Abs()), Read(request, count, fixed, sili))
    ensures (a, data) == Reply(d, old(cart.Abs()), Read(request, count, fixed, sili))
  {
    data := [];
    if fixed && sili {
      a := InvalidField;
    } else if cart.medium.CleanMedium? {
      a := CleaningCartridge;
    } else {
      var s;
      data, s := ReadBlocks(cart, d.codec, request, count, fixed, sili);
      a := ReadEnded(s);
    }
  }

  function WithData(data: seq<byte>, r: (Cart, seq<byte>, ReadSense)): (Cart, seq<byte>, ReadSense) {
    (r.0, data + r.1, r.2)
  }

  lemma NothingBefore(r: (Cart, seq<byte>, ReadSense))
    ensures WithData([], r) == r
  {
    assert [] + r.1 == r.1;
  }

  lemma ReadStep(codec: Codec, c: Cart, request: nat, count: nat, fixed: bool, sili: bool,
                 last: ReadSense, data: seq<byte>)
    requires c.Ok() && count > 0
    ensures var (after, got, s) := ReadOutcome(codec, c, request, sili);
      WithData(data, BlocksRead(codec, c, request, count, fixed, sili, last)) ==
        if got == [] && fixed then (after, data, WithInformation(Later(last, s), count))
        else WithData(data + got, BlocksRead(codec, after, request, count - 1, fixed, sili, Later(last, s)))
  {
    var (after, got, s) := ReadOutcome(codec, c, request, sili);
    assert data + [] == data;
    Regroup(data, got, BlocksRead(codec, after, request, count - 1, fixed, sili, Later(last, s)).1);
  }

  method ReadOne(cart: Cartridge, codec: Codec, request: nat, sili: bool) returns (data: seq<byte>, s: ReadSense)
    requires cart.Ready()
    modifies cart, cart.parts
    ensures cart.Ready()
    ensures (cart.Abs(), data, s) == ReadOutcome(codec, old(cart.Abs()), request, sili)
  {
    var buf := new byte[request];
    var n;
    n, s := ReadBlock(cart, codec, buf, request, sili);
    data := buf[..n];
  }

  // One turn of the loop of complete_read_6, with left blocks to read.
  method ReadNext(cart: Cartridge, codec: Codec, request: nat, left: nat, fixed: bool, sili: bool,
                  before: seq<byte>, last: ReadSense)
    returns (data: seq<byte>, s: ReadSense, stop: bool)
    requires cart.Ready() && left > 0
    modifies cart, cart.parts
    ensures cart.Ready()
    ensures WithData(before, BlocksRead(codec, old(cart.Abs()), request, left, fixed, sili, last)) ==
      if stop then (cart.Abs(), data, s)
      else WithData(data, BlocksRead(codec, cart.Abs(), request, left - 1, fixed, sili, s))
  {
    ReadStep(codec, cart.Abs(), request, left, fixed, sili, last, before);
    var got;
    got, s := ReadOne(cart, codec, request, sili);
    s := Later(last, s);
    data, stop := before + got, got == [] && fixed;
    if stop {
      data, s := before, WithInformation(s, left);
    }
  }

  // The loop of complete_read_6.
  method ReadBlocks(cart: Cartridge, codec: Codec, request: nat, count: nat, fixed: bool, sili: bool)
    returns (data: seq<byte>, s: ReadSense)
    requires cart.Ready()
    modifies cart, cart.parts
    ensures cart.Ready()
    ensures (cart.Abs(), data, s) == BlocksRead(codec, old(cart.Abs()), request, count, fixed, sili, NothingToReport)
  {
    data, s := [], NothingToReport;
    var k, stop := 0, false;
    ghost var end := BlocksRead(codec, cart.Abs(), request, count, fixed, sili, NothingToReport);
    NothingBefore(end);
    while k < count && !stop
      invariant 0 <= k <= count && cart.Ready()
      invariant end == if stop then (cart.Abs(), data, s)
                       else WithData(data, BlocksRead(codec, cart.Abs(), request, count - k, fixed, sili, s))
      decreases count - k, !stop
    {
      data, s, stop := ReadNext(cart, codec, request, count - k, fixed, sili, data, s);
      k := if stop then k else k + 1;
    }
    assert data + [] == data;
  }

  method Perform(cart: Cartridge, d: Drive, cmd: Command) returns (a: Answer, data: seq<byte>)
    requires cart.Ready() && d.codec.Lossless() && Posed(d, cart.Abs(), cmd)
    modifies cart, cart.parts
    ensures cart.Ready() && cart.Abs() == Exec(d, old(cart.Abs()), cmd)
    ensures (a, data) == Reply(d, old(cart.Abs()), cmd)
  {
    var s := Good;
    data := [];
    match cmd {
      case Write(bytes, size, count, failAt, short) =>
        a := DoWrite(cart, d, bytes, size, count, failAt, short);
        return;
      case WriteMarks(count) =>
        a := DoWriteFilemarks(cart, d, count);
        return;
      case Read(request, count, fixed, sili) =>
        a, data := DoRead(cart, d, request, count, fixed, sili);
        return;
      case SpaceBlocks(n) => s := DoSpaceBlocks(cart, n);
      case SpaceMarks(n) => s := DoSpaceMarks(cart, n);
      case SpaceEnd => s := cart.PositionToEod();
      case Locate(partition, number) => s := DoLocate(cart, partition, number);
      case Rewind => s := cart.RewindTape();
      case Erase =>
        a := DoErase(cart, d);
        return;
    }
    a := SpaceEnded(s);
  }

  // Any run of commands on the files and maps is the run on the simple tape:
  // the same tape after it, and the same answers and data on the way.
  method PerformAll(cart: Cartridge, d: Drive, cmds: seq<Command>) returns (answers: seq<(Answer, seq<byte>)>)
    requires cart.Ready() && d.codec.Lossless() && AllPosed(d, cart.Abs(), cmds)
    modifies cart, cart.parts
    ensures cart.Ready() && cart.Abs() == Run(d, old(cart.Abs()), cmds)
    ensures answers == Replies(d, old(cart.Abs()), cmds)
  {
    ghost var start := cart.Abs();
    var k := 0;
    answers := [];
    while k < |cmds|
      invariant 0 <= k <= |cmds| && cart.Ready()
      invariant cart.Abs().Ok() && AllPosed(d, cart.Abs(), cmds[k..])
      invariant Run(d, start, cmds) == Run(d, cart.Abs(), cmds[k..])
      invariant Replies(d, start, cmds) == answers + Replies(d, cart.Abs(), cmds[k..])
    {
      assert cmds[k..][0] == cmds[k] && cmds[k..][1..] == cmds[k + 1..];
      ghost var c := cart.Abs();
      var a, data := Perform(cart, d, cmds[k]);
      OneReply(d, c, cmds[k..], answers);
      answers := answers + [(a, data)];
      k := k + 1;
    }
  }

  lemma OneReply(d: Drive, c: Cart, cmds: seq<Command>, before: seq<(Answer, seq<byte>)>)
    requires c.Ok() && cmds != [] && AllPosed(d, c, cmds)
    ensures before + Replies(d, c, cmds) ==
      before + [Reply(d, c, cmds[0])] + Replies(d, Exec(d, c, cmds[0]), cmds[1..])
  {
  }
}
