// What is written can be read back, and one partition's commands leave the
// others alone.

module RoundTrip {
  import opened Basics
  import opened Files
  import opened Tape
  import opened CartModel
  import opened BlockIo
  import opened Commands
  import Capacity

  // What an initiator writes.
  datatype Item = Data(bytes: seq<byte>) | Mark

  function EncodedItem(d: Drive, i: Item): Object {
    if i.Data? then d.codec.Encode(d.packing, i.bytes) else Filemark
  }

  function Encoded(d: Drive, items: seq<Item>): (r: seq<Object>)
    ensures |r| == |items|
    ensures forall k :: 0 <= k < |items| ==> r[k] == EncodedItem(d, items[k])
  {
    seq(|items|, k requires 0 <= k < |items| => EncodedItem(d, items[k]))
  }

  // One command per item; no write fails.
  function WriteCommand(i: Item): Command {
    if i.Data? then Write(i.bytes, |i.bytes|, 1, 1, 0) else WriteMarks(1)
  }

  function WriteCommands(items: seq<Item>): seq<Command> {
    if items == [] then [] else [WriteCommand(items[0])] + WriteCommands(items[1..])
  }

  // Room for the items behind the head, in blocks and in bytes.
  predicate Fits(d: Drive, c: Cart, items: seq<Item>) {
    c.Ok() && c.pos + |items| <= MAX_BLOCK + 1 &&
    Offset(c) + |Bytes(Encoded(d, items))| <= d.Capacity(c.cur)
  }

  lemma {:induction false} BytesOfFirst(objs: seq<Object>)
    requires objs != []
    ensures Bytes(objs) == Stored(objs[0]) + Bytes(objs[1..])
  {
    var n := |objs| - 1;
    if n > 0 {
      BytesOfFirst(objs[..n]);
      assert objs[..n][1..] == objs[1..][..n - 1];
    }
  }

  lemma FitsRest(d: Drive, c: Cart, items: seq<Item>)
    requires Fits(d, c, items) && items != []
    ensures Offset(c) + |Stored(EncodedItem(d, items[0]))| + |Bytes(Encoded(d, items[1..]))| <= d.Capacity(c.cur)
  {
    BytesOfFirst(Encoded(d, items));
    assert Encoded(d, items)[1..] == Encoded(d, items[1..]);
  }

  // Where writing is permitted, one item goes in at the head.
  lemma OneItem(d: Drive, c: Cart, i: Item)
    requires c.Ok() && d.codec.Lossless() && Checked(c, d.writeProtect).ok
    requires i.Data? ==> i.bytes != []
    requires c.pos <= MAX_BLOCK
    requires Offset(c) + |Stored(EncodedItem(d, i))| <= d.Capacity(c.cur)
    ensures Posed(d, c, WriteCommand(i))
    ensures Exec(d, c, WriteCommand(i)) == Written(c, [EncodedItem(d, i)])
    ensures var r := Written(c, [EncodedItem(d, i)]);
      Checked(r, d.writeProtect).ok && Offset(r) == Offset(c) + |Stored(EncodedItem(d, i))|
  {
    var checked := Checked(c, d.writeProtect);
    var cut := c.Objs()[..c.pos];
    var o := EncodedItem(d, i);
    BytesAppend(cut, o);
    assert (cut + [o])[..c.pos + 1] == cut + [o];
    if i.Data? {
      assert i.bytes[..|i.bytes|] == i.bytes;
      var (after, s) := WriteOutcome(d, checked, i.bytes, Sound);
      assert BlocksWritten(d, after, i.bytes, 0, 0, 0) == (after, Quiet);
      assert BlocksWritten(d, checked, i.bytes, 1, 1, 0).0 == after;
    } else {
      assert Repeat(Filemark, 1) == [Filemark];
    }
  }

  // A run of writes from any place puts the items there and leaves the head after them.
  lemma {:induction false} WritesBuild(d: Drive, c: Cart, items: seq<Item>)
    requires Fits(d, c, items) && d.codec.Lossless() && Checked(c, d.writeProtect).ok
    requires forall i :: 0 <= i < |items| ==> items[i].Data? ==> items[i].bytes != []
    ensures AllPosed(d, c, WriteCommands(items))
    ensures items != [] ==> Run(d, c, WriteCommands(items)) == Written(c, Encoded(d, items))
    decreases |items|
  {
    if items != [] {
      FitsRest(d, c, items);
      OneItem(d, c, items[0]);
      EncodedSplit(d, items);
      var next := Written(c, [EncodedItem(d, items[0])]);
      WritesBuild(d, next, items[1..]);
      WrittenTwice(c, EncodedItem(d, items[0]), Encoded(d, items[1..]));
      assert WriteCommands(items)[0] == WriteCommand(items[0]);
      assert WriteCommands(items)[1..] == WriteCommands(items[1..]);
    }
  }

  lemma EncodedSplit(d: Drive, items: seq<Item>)
    requires items != []
    ensures Encoded(d, items) == [EncodedItem(d, items[0])] + Encoded(d, items[1..])
    ensures |items| == 1 ==> Encoded(d, items) == [EncodedItem(d, items[0])]
  {
  }

  // ------------------------------------------------------------ reading

  lemma EncodeIsIntact(codec: Codec, packing: Packing, x: seq<byte>)
    requires codec.Lossless()
    ensures codec.Intact(codec.Encode(packing, x))
    ensures codec.Unpack(packing, codec.Encode(packing, x).stored) == x
  {
  }

  // A request shorter than the block gets the front of it; either way the
  // head passes exactly the block.
  lemma ReadOneBlock(d: Drive, c: Cart, x: seq<byte>, request: nat, sili: bool)
    requires c.Ok() && d.codec.Lossless() && !c.AtEod() && request > 0
    requires c.Objs()[c.pos] == d.codec.Encode(d.packing, x)
    ensures var (after, got, s) := ReadOutcome(d.codec, c, request, sili);
      && after.tapes == c.tapes && after.cur == c.cur && after.pos == c.pos + 1
      && got == (if request < |x| then x[..request] else x)
      && s == (if |x| < request || (!sili && request < |x|) then IncorrectLength(request - |x|) else NothingToReport)
  {
    EncodeIsIntact(d.codec, d.packing, x);
  }

  function ReadCommands(n: nat, request: nat): (r: seq<Command>)
    ensures |r| == n
  {
    if n == 0 then [] else [Read(request, 1, false, false)] + ReadCommands(n - 1, request)
  }

  // What a read that meets an item is told and given.
  function Answered(i: Item, request: nat): (Answer, seq<byte>) {
    match i
    case Data(x) => (ReadEnded(LengthSense(request, |x|, false)), if request < |x| then x[..request] else x)
    case Mark => (ReadEnded(FilemarkRead(request)), [])
  }

  // What reads see of the items, and after them.
  function Expected(items: seq<Item>, more: nat, request: nat): (r: seq<(Answer, seq<byte>)>)
    ensures |r| == |items| + more
  {
    seq(|items| + more, k requires 0 <= k < |items| + more =>
      if k < |items| then Answered(items[k], request) else (ReadEnded(EndOfDataRead(request)), []))
  }

  lemma ExpectedFirst(items: seq<Item>, more: nat, request: nat)
    ensures items != [] ==>
      Expected(items, more, request) == [Answered(items[0], request)] + Expected(items[1..], more, request)
    ensures items == [] && more > 0 ==>
      Expected(items, more, request) == [(ReadEnded(EndOfDataRead(request)), [])] + Expected(items, more - 1, request)
  {
  }

  // One READ(6) of one block.
  lemma ReadOnce(d: Drive, c: Cart, request: nat)
    requires c.Ok() && !c.medium.CleanMedium?
    ensures var cmd := Read(request, 1, false, false); var (after, got, s) := ReadOutcome(d.codec, c, request, false);
      Posed(d, c, cmd) && Exec(d, c, cmd) == after && Reply(d, c, cmd) == (ReadEnded(s), got)
  {
    var (after, got, s) := ReadOutcome(d.codec, c, request, false);
    assert BlocksRead(d.codec, after, request, 0, false, false, Later(NothingToReport, s)).1 == [];
    assert got + [] == got;
  }

  // A read at an item answers as the item says and passes it; a read at end of
  // data says so and stays.
  lemma ReadAnswers(d: Drive, c: Cart, items: seq<Item>, request: nat)
    requires c.Ok() && !c.medium.CleanMedium? && d.codec.Lossless() && request > 0 && c.Objs() == Encoded(d, items)
    ensures var cmd := Read(request, 1, false, false);
      && Posed(d, c, cmd)
      && (c.AtEod() ==> Exec(d, c, cmd) == c && Reply(d, c, cmd) == (ReadEnded(EndOfDataRead(request)), []))
      && (!c.AtEod() ==>
          var r := Exec(d, c, cmd);
          && r.tapes == c.tapes && r.cur == c.cur && r.pos == c.pos + 1 && r.medium == c.medium
          && Reply(d, c, cmd) == Answered(items[c.pos], request))
  {
    ReadOnce(d, c, request);
    if !c.AtEod() {
      if items[c.pos].Data? {
        ReadOneBlock(d, c, items[c.pos].bytes, request, false);
      } else {
        assert BlocksForw(c.Objs(), c.pos, 1) == BlockWalk(c.pos + 1, 1, AtMark);
      }
    }
  }

  // Reads from any place on see the items from there in order, each block or
  // its front, and then end of data again and again.
  lemma {:induction false} ReadsSeeItems(d: Drive, c: Cart, items: seq<Item>, n: nat, request: nat)
    requires c.Ok() && !c.medium.CleanMedium? && d.codec.Lossless() && request > 0
    requires c.Objs() == Encoded(d, items) && c.pos + n >= |items|
    ensures AllPosed(d, c, ReadCommands(n, request))
    ensures Replies(d, c, ReadCommands(n, request)) == Expected(items[c.pos..], c.pos + n - |items|, request)
    ensures var r := Run(d, c, ReadCommands(n, request)); r.tapes == c.tapes && r.cur == c.cur && r.AtEod()
    decreases n
  {
    ExpectedFirst(items[c.pos..], c.pos + n - |items|, request);
    if n > 0 {
      ReadAnswers(d, c, items, request);
      var cmds := ReadCommands(n, request);
      assert cmds[0] == Read(request, 1, false, false) && cmds[1..] == ReadCommands(n - 1, request);
      ReadsSeeItems(d, Exec(d, c, cmds[0]), items, n - 1, request);
      assert !c.AtEod() ==> items[c.pos..][1..] == items[c.pos + 1..];
    }
  }

  // A run of two parts is one after the other.
  lemma {:induction false} TwoParts(d: Drive, c: Cart, a: seq<Command>, b: seq<Command>)
    requires c.Ok() && AllPosed(d, c, a) && AllPosed(d, Run(d, c, a), b)
    ensures AllPosed(d, c, a + b)
    ensures Run(d, c, a + b) == Run(d, Run(d, c, a), b)
    ensures Replies(d, c, a + b) == Replies(d, c, a) + Replies(d, Run(d, c, a), b)
    decreases |a|
  {
    if a == [] {
      assert a + b == b;
    } else {
      assert (a + b)[0] == a[0] && (a + b)[1..] == a[1..] + b;
      var next := Exec(d, c, a[0]);
      TwoParts(d, next, a[1..], b);
      Regroup([Reply(d, c, a[0])], Replies(d, next, a[1..]), Replies(d, Run(d, c, a), b));
    }
  }

  function Back(n: nat, request: nat): (r: seq<Command>)
    ensures |r| == n + 1
  {
    [Rewind] + ReadCommands(n, request)
  }

  lemma OneMoreBefore(d: Drive, c: Cart, cmd: Command, next: Cart, cmds: seq<Command>)
    requires c.Ok() && Posed(d, c, cmd) && next == Exec(d, c, cmd) && AllPosed(d, next, cmds)
    ensures AllPosed(d, c, [cmd] + cmds) && Run(d, c, [cmd] + cmds) == Run(d, next, cmds)
    ensures Replies(d, c, [cmd] + cmds)[1..] == Replies(d, next, cmds)
  {
    assert ([cmd] + cmds)[1..] == cmds;
  }

  lemma RewindThenRead(d: Drive, c: Cart, items: seq<Item>, request: nat, more: nat)
    requires c.Ok() && !c.medium.CleanMedium? && d.codec.Lossless() && request > 0 && c.Objs() == Encoded(d, items)
    ensures var cmds := Back(|items| + more, request);
      && AllPosed(d, c, cmds)
      && Replies(d, c, cmds)[1..] == Expected(items, more, request)
      && Run(d, c, cmds).Objs() == c.Objs()
  {
    ReadsSeeItems(d, Rewound(c), items, |items| + more, request);
    OneMoreBefore(d, c, Rewind, Rewound(c), ReadCommands(|items| + more, request));
    assert items[0..] == items;
  }

  lemma TailOfBoth<T>(a: seq<T>, b: seq<T>, n: nat)
    requires n == |a| && |b| > 0
    ensures (a + b)[n + 1..] == b[1..]
  {
  }

  lemma WrittenFromStart(d: Drive, c: Cart, items: seq<Item>) returns (w: Cart)
    requires Fits(d, c, items) && c.pos == 0 && items != []
    requires d.codec.Lossless() && Checked(c, d.writeProtect).ok
    requires forall i :: 0 <= i < |items| ==> items[i].Data? ==> items[i].bytes != []
    ensures AllPosed(d, c, WriteCommands(items)) && w == Run(d, c, WriteCommands(items))
    ensures w.Objs() == Encoded(d, items) && !w.medium.CleanMedium?
  {
    WritesBuild(d, c, items);
    assert c.Objs()[..0] + Encoded(d, items) == Encoded(d, items);
    w := Run(d, c, WriteCommands(items));
  }

  // After any commands that left the items on the tape.
  lemma ThenRead(d: Drive, c: Cart, writes: seq<Command>, w: Cart, items: seq<Item>, request: nat, more: nat)
    requires c.Ok() && AllPosed(d, c, writes) && w == Run(d, c, writes) && w.Objs() == Encoded(d, items)
    requires !w.medium.CleanMedium? && d.codec.Lossless() && request > 0
    ensures var cmds := writes + Back(|items| + more, request);
      && AllPosed(d, c, cmds)
      && Replies(d, c, cmds)[|writes| + 1..] == Expected(items, more, request)
      && Run(d, c, cmds).Objs() == Encoded(d, items)
  {
    var back := Back(|items| + more, request);
    RewindThenRead(d, w, items, request, more);
    TwoParts(d, c, writes, back);
    TailOfBoth(Replies(d, c, writes), Replies(d, w, back), |writes|);
  }

  // One run: write items from the beginning, rewind, and read them back; every
  // read more meets the end of data and stays there.
  lemma WriteRewindRead(d: Drive, c: Cart, items: seq<Item>, request: nat, more: nat)
    requires Fits(d, c, items) && c.pos == 0 && items != []
    requires d.codec.Lossless() && Checked(c, d.writeProtect).ok && request > 0
    requires forall i :: 0 <= i < |items| ==> items[i].Data? ==> items[i].bytes != []
    ensures var cmds := WriteCommands(items) + Back(|items| + more, request);
      && AllPosed(d, c, cmds)
      && Replies(d, c, cmds)[|items| + 1..] == Expected(items, more, request)
      && Run(d, c, cmds).Objs() == Encoded(d, items)
  {
    var w := WrittenFromStart(d, c, items);
    ThenRead(d, c, WriteCommands(items), w, items, request, more);
    AsManyCommands(items);
  }

  // One run: go to end of data, from anywhere, and write items. They come after
  // what was there, on any medium that can be written, WORM as well.
  lemma AppendsAfterEnd(d: Drive, c: Cart, items: seq<Item>)
    requires c.Ok() && d.codec.Lossless() && !d.writeProtect && !c.medium.CleanMedium?
    requires |c.tapes[c.cur]| + |items| <= MAX_BLOCK + 1
    requires |Bytes(c.tapes[c.cur])| + |Bytes(Encoded(d, items))| <= d.Capacity(c.cur)
    requires forall i :: 0 <= i < |items| ==> items[i].Data? ==> items[i].bytes != []
    ensures var cmds, objs := [SpaceEnd] + WriteCommands(items), c.tapes[c.cur];
      && AllPosed(d, c, cmds)
      && Run(d, c, cmds).tapes == c.tapes[c.cur := objs + Encoded(d, items)]
      && Run(d, c, cmds).pos == |objs| + |items| && Run(d, c, cmds).cur == c.cur
  {
    var end, objs := Exec(d, c, SpaceEnd), c.tapes[c.cur];
    assert end.Objs()[..|objs|] == objs;
    WritesBuild(d, end, items);
    OneMoreBefore(d, c, SpaceEnd, end, WriteCommands(items));
    if items == [] {
      assert objs + Encoded(d, items) == objs && c.tapes[c.cur := objs] == c.tapes;
    }
  }

  lemma {:induction false} AsManyCommands(items: seq<Item>)
    ensures |WriteCommands(items)| == |items|
  {
    if items != [] {
      AsManyCommands(items[1..]);
    }
  }

  // -------------------------------------------------- READ(6) of many blocks

  // n intact blocks of one length from a place on.
  predicate Exact(codec: Codec, objs: seq<Object>, pos: nat, n: nat, size: nat) {
    && pos + n <= |objs|
    && forall i :: pos <= i < pos + n ==> objs[i].Block? && codec.Intact(objs[i]) && objs[i].size == size
  }

  function Contents(codec: Codec, objs: seq<Object>, pos: nat, n: nat, size: nat): seq<byte>
    requires Exact(codec, objs, pos, n, size)
    decreases n
  {
    if n == 0 then []
    else codec.Unpack(objs[pos].packing, objs[pos].stored) + Contents(codec, objs, pos + 1, n - 1, size)
  }

  lemma ExactFirst(codec: Codec, c: Cart, request: nat, count: nat, sili: bool)
    requires c.Ok() && request > 0 && count > 0 && Exact(codec, c.Objs(), c.pos, 1, request)
    ensures var o := c.Objs()[c.pos];
      BlocksRead(codec, c, request, count, true, sili, NothingToReport) ==
        WithData(codec.Unpack(o.packing, o.stored),
                 BlocksRead(codec, Seek(c, c.pos + 1), request, count - 1, true, sili, NothingToReport))
  {
    var o := c.Objs()[c.pos];
    assert ReadOutcome(codec, c, request, sili) ==
      (Seek(c, c.pos + 1), codec.Unpack(o.packing, o.stored), NothingToReport);
  }

  lemma DataTwice(a: seq<byte>, b: seq<byte>, r: (Cart, seq<byte>, ReadSense))
    ensures WithData(a, WithData(b, r)) == WithData(a + b, r)
  {
    Regroup(a, b, r.1);
  }

  // The head n objects on.
  function Past(c: Cart, n: nat): (r: Cart)
    requires c.Ok() && c.pos + n <= |c.Objs()|
    ensures r.Succeeds(c) && r.tapes == c.tapes && r.cur == c.cur && r.pos == c.pos + n
    decreases n
  {
    if n == 0 then c else Past(Seek(c, c.pos + 1), n - 1)
  }

  lemma ExactJoin(codec: Codec, c: Cart, request: nat, count: nat, n: nat, sili: bool,
                  rest: (Cart, seq<byte>, ReadSense))
    requires c.Ok() && request > 0 && 0 < n <= count && Exact(codec, c.Objs(), c.pos, n, request)
    requires BlocksRead(codec, Seek(c, c.pos + 1), request, count - 1, true, sili, NothingToReport) ==
      WithData(Contents(codec, c.Objs(), c.pos + 1, n - 1, request), rest)
    ensures BlocksRead(codec, c, request, count, true, sili, NothingToReport) ==
      WithData(Contents(codec, c.Objs(), c.pos, n, request), rest)
  {
    var o := c.Objs()[c.pos];
    ExactFirst(codec, c, request, count, sili);
    DataTwice(codec.Unpack(o.packing, o.stored), Contents(codec, c.Objs(), c.pos + 1, n - 1, request), rest);
  }

  // Exact blocks go by with nothing to report; rest is what follows them.
  lemma {:induction false} ExactReads(codec: Codec, c: Cart, request: nat, count: nat, n: nat, sili: bool,
                                      rest: (Cart, seq<byte>, ReadSense))
    requires c.Ok() && request > 0 && n <= count && Exact(codec, c.Objs(), c.pos, n, request)
    requires rest == BlocksRead(codec, Past(c, n), request, count - n, true, sili, NothingToReport)
    ensures BlocksRead(codec, c, request, count, true, sili, NothingToReport) ==
      WithData(Contents(codec, c.Objs(), c.pos, n, request), rest)
    decreases n
  {
    if n == 0 {
      NothingBefore(rest);
    } else {
      ExactReads(codec, Seek(c, c.pos + 1), request, count - 1, n - 1, sili, rest);
      ExactJoin(codec, c, request, count, n, sili, rest);
    }
  }

  // A fixed length read that meets a filemark or end of data after n exact
  // blocks delivers them and says how many blocks are missing, not counting
  // the filemark, which it passes.
  lemma FixedReadStops(codec: Codec, c: Cart, request: nat, count: nat, n: nat)
    requires c.Ok() && request > 0 && n < count && Exact(codec, c.Objs(), c.pos, n, request)
    requires c.pos + n == |c.Objs()| || c.Objs()[c.pos + n].Filemark?
    ensures var (after, data, s) := BlocksRead(codec, c, request, count, true, false, NothingToReport);
      && data == Contents(codec, c.Objs(), c.pos, n, request)
      && (if c.pos + n == |c.Objs()| then after.pos == c.pos + n && s == EndOfDataRead(count - n)
          else after.pos == c.pos + n + 1 && s == FilemarkRead(count - n))
  {
    var there := Past(c, n);
    ExactReads(codec, c, request, count, n, false,
      BlocksRead(codec, there, request, count - n, true, false, NothingToReport));
    if there.pos < |c.Objs()| {
      assert BlocksForw(c.Objs(), there.pos, 1) == BlockWalk(there.pos + 1, 1, AtMark);
    }
    var data := Contents(codec, c.Objs(), c.pos, n, request);
    assert data + [] == data;
  }

  lemma ReadMoves(codec: Codec, c: Cart, request: nat, sili: bool)
    requires c.Ok() && request > 0
    ensures var after := ReadOutcome(codec, c, request, sili).0;
      after.Objs() == c.Objs() && after.pos == if c.AtEod() then c.pos else c.pos + 1
  {
    if !c.AtEod() && c.Objs()[c.pos].Filemark? {
      assert BlocksForw(c.Objs(), c.pos, 1) == BlockWalk(c.pos + 1, 1, AtMark);
    }
  }

  lemma {:induction false} ReadsMoveOn(codec: Codec, c: Cart, request: nat, count: nat, sili: bool, last: ReadSense)
    requires c.Ok() && request > 0
    ensures var after := BlocksRead(codec, c, request, count, true, sili, last).0;
      after.pos >= c.pos && (after.pos == c.pos <==> count == 0 || c.AtEod())
    decreases count
  {
    if count > 0 {
      ReadMoves(codec, c, request, sili);
      var (after, got, s) := ReadOutcome(codec, c, request, sili);
      ReadsMoveOn(codec, after, request, count - 1, sili, Later(last, s));
    }
  }

  // Something to report after n exact blocks ends the read there if and only
  // if it delivered nothing, was the last block asked for, or the tape ends.
  // A block of another length does deliver something, and the read goes on.
  lemma StopsWhereReported(codec: Codec, c: Cart, request: nat, count: nat, n: nat)
    requires c.Ok() && request > 0 && n < count && Exact(codec, c.Objs(), c.pos, n, request)
    requires c.pos + n < |c.Objs()|
    ensures var (after, got, s) := ReadOutcome(codec, Past(c, n), request, false);
      !s.NothingToReport? ==>
        (BlocksRead(codec, c, request, count, true, false, NothingToReport).0.pos == after.pos <==>
         got == [] || n + 1 == count || after.AtEod())
  {
    var there := Past(c, n);
    ExactReads(codec, c, request, count, n, false,
      BlocksRead(codec, there, request, count - n, true, false, NothingToReport));
    var (after, got, s) := ReadOutcome(codec, there, request, false);
    ReadMoves(codec, there, request, false);
    ReadsMoveOn(codec, after, request, count - n - 1, false, Later(NothingToReport, s));
  }

  // A block of one byte and one of two, read as two blocks of two: both are
  // delivered, run together, and the report is of bytes, not of blocks.
  lemma ShortBlockIsPassed(codec: Codec, a: byte, b: byte, e: byte)
    requires codec.Lossless()
    ensures var c := Cart([[codec.Encode(Raw, [a]), codec.Encode(Raw, [b, e])]], 0, 0, true, DataMedium);
      var (after, data, s) := BlocksRead(codec, c, 2, 2, true, false, NothingToReport);
      after.pos == 2 && data == [a, b, e] && s == IncorrectLength(1)
  {
    var c := Cart([[codec.Encode(Raw, [a]), codec.Encode(Raw, [b, e])]], 0, 0, true, DataMedium);
    var next := Seek(c, 1);
    assert ReadOutcome(codec, c, 2, false) == (next, [a], IncorrectLength(1));
    assert ReadOutcome(codec, next, 2, false) == (Seek(next, 2), [b, e], NothingToReport);
    assert BlocksRead(codec, next, 2, 1, true, false, IncorrectLength(1)) ==
      (Seek(next, 2), [b, e] + [], IncorrectLength(1));
    assert [a] + ([b, e] + []) == [a, b, e];
  }

  // ------------------------------------------------- WRITE(6) of many blocks

  lemma RepeatMore<T>(o: T, n: nat)
    ensures [o] + Repeat(o, n) == Repeat(o, n + 1)
  {
  }

  lemma QuietWrite(d: Drive, c: Cart, x: seq<byte>)
    requires c.Ok() && WriteOutcome(d, c, x, Sound).1.Quiet?
    ensures WriteOutcome(d, c, x, Sound).0 == Written(c, [d.codec.Encode(d.packing, x)])
  {
  }

  // A command that runs to its end without anything to report has written
  // count copies of its first block.
  lemma {:induction false} WritesCopies(d: Drive, c: Cart, x: seq<byte>, count: nat, failAt: nat)
    requires c.Ok() && c.pos + count <= MAX_BLOCK + 1 && count <= failAt
    requires BlocksWritten(d, c, x, count, failAt, 0).1.Quiet?
    ensures count > 0 ==>
      BlocksWritten(d, c, x, count, failAt, 0).0 == Written(c, Repeat(d.codec.Encode(d.packing, x), count))
    decreases count
  {
    if count > 0 {
      var o := d.codec.Encode(d.packing, x);
      var (after, s) := WriteOutcome(d, c, x, Sound);
      assert s.Quiet?;
      QuietWrite(d, c, x);
      WritesCopies(d, after, x, count - 1, failAt - 1);
      RepeatMore(o, count - 1);
      if count == 1 {
        assert Repeat(o, 1) == [o];
      } else {
        WrittenTwice(c, o, Repeat(o, count - 1));
      }
    }
  }

  // The k-th block of a transfer of count blocks.
  function Chunk(data: seq<byte>, size: nat, k: nat): seq<byte>
    requires (k + 1) * size <= |data|
  {
    assert k * size <= (k + 1) * size;
    data[k * size..(k + 1) * size]
  }

  lemma EncodeIsInjective(codec: Codec, packing: Packing, x: seq<byte>, y: seq<byte>)
    requires codec.Lossless()
    ensures codec.Encode(packing, x) == codec.Encode(packing, y) <==> x == y
  {
    EncodeIsIntact(codec, packing, x);
    EncodeIsIntact(codec, packing, y);
  }

  // The k-th block on the tape is the k-th transferred block exactly when that
  // one equals the first: a transfer of different blocks is not what is written.
  lemma ManyBlocksWritten(d: Drive, c: Cart, data: seq<byte>, size: nat, count: nat, k: nat)
    requires c.Ok() && d.codec.Lossless() && c.pos + count <= MAX_BLOCK + 1
    requires k < count && count * size <= |data| && size <= |data| && (k + 1) * size <= |data|
    requires BlocksWritten(d, c, data[..size], count, count, 0).1.Quiet?
    ensures var r := BlocksWritten(d, c, data[..size], count, count, 0).0;
      |r.Objs()| == c.pos + count &&
      (r.Objs()[c.pos + k] == d.codec.Encode(d.packing, Chunk(data, size, k)) <==>
       Chunk(data, size, k) == data[..size])
  {
    WritesCopies(d, c, data[..size], count, count);
    EncodeIsInjective(d.codec, d.packing, Chunk(data, size, k), data[..size]);
  }

  lemma OneByte(d: Drive, c: Cart, a: byte)
    requires c.Ok() && d.packing.Raw? && !d.earlyWarning && !d.progEarlyWarning
    requires Offset(c) < d.Capacity(c.cur) && c.pos <= MAX_BLOCK
    ensures WriteOutcome(d, c, [a], Sound) == (Written(c, [d.codec.Encode(Raw, [a])]), Quiet)
  {
  }

  // Two different bytes sent as two blocks of one: the second is not written.
  lemma SecondBlockIsLost(d: Drive, a: byte, b: byte)
    requires d.codec.Lossless() && d.packing.Raw? && a != b && d.Capacity(0) > 1
    requires !d.earlyWarning && !d.progEarlyWarning && !d.writeProtect
    ensures var c := Cart([[]], 0, 0, true, DataMedium); var o := d.codec.Encode(Raw, [a]);
      Exec(d, c, Write([a, b], 1, 2, 2, 0)).tapes == [[o, o]] && o != d.codec.Encode(Raw, [b])
  {
    var c, o := Cart([[]], 0, 0, true, DataMedium), d.codec.Encode(Raw, [a]);
    assert [a, b][..1] == [a];
    var one := Written(c, [o]);
    assert one.Objs()[..1] == [] + [o];
    BytesAppend([], o);
    OneByte(d, c, a);
    OneByte(d, one, a);
    WrittenTwice(c, o, [o]);
    var two := Written(c, [o] + [o]);
    assert two.Objs() == [o, o];
    assert BlocksWritten(d, one, [a], 1, 1, 0) == BlocksWritten(d, two, [a], 0, 0, 0);
  }

  // ---------------------------------------------------------- isolation

  // A command changes at most the tape of the partition the head is in.
  lemma OthersUntouched(d: Drive, c: Cart, cmd: Command, i: nat)
    requires c.Ok() && Posed(d, c, cmd) && i < |c.tapes| && i != c.cur
    ensures Exec(d, c, cmd).tapes[i] == c.tapes[i]
  {
    var checked := Checked(c, d.writeProtect);
    if cmd.Write? {
      if checked.ok {
        BlocksElsewhere(d, checked, cmd.data[..cmd.size], cmd.count, cmd.failAt, cmd.bytes, i);
      }
    } else if !cmd.WriteMarks? && !cmd.Erase? {
      Capacity.TapesKept(d, c, cmd);
    }
  }

  lemma {:induction false} BlocksElsewhere(
    d: Drive, c: Cart, x: seq<byte>, count: nat, failAt: nat, bytes: nat, i: nat)
    requires c.Ok() && i < |c.tapes| && i != c.cur
    ensures var r := BlocksWritten(d, c, x, count, failAt, bytes).0; r.tapes[i] == c.tapes[i] && r.cur == c.cur
    decreases count
  {
    if count > 0 {
      var after := WriteOutcome(d, c, x, if failAt == 0 then Short(bytes) else Sound).0;
      BlocksElsewhere(d, after, x, count - 1, if failAt == 0 then 0 else failAt - 1, bytes, i);
    }
  }

  // Over a run, a partition the head never enters keeps its tape.
  ghost predicate StaysOut(d: Drive, c: Cart, cmds: seq<Command>, i: nat)
    requires c.Ok() && AllPosed(d, c, cmds)
    decreases |cmds|
  {
    c.cur != i && (cmds == [] || StaysOut(d, Exec(d, c, cmds[0]), cmds[1..], i))
  }

  lemma {:induction false} RunLeavesOthers(d: Drive, c: Cart, cmds: seq<Command>, i: nat)
    requires c.Ok() && AllPosed(d, c, cmds) && i < |c.tapes| && StaysOut(d, c, cmds, i)
    ensures Run(d, c, cmds).tapes[i] == c.tapes[i]
    decreases |cmds|
  {
    if cmds != [] {
      OthersUntouched(d, c, cmds[0], i);
      RunLeavesOthers(d, Exec(d, c, cmds[0]), cmds[1..], i);
    }
  }
}
