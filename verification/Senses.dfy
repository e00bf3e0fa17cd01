// What one write and one read leave and report, in the drive's own numbers, and
// where commands over many blocks stop.

module Senses {
  import opened Files
  import opened Tape
  import opened CartModel
  import opened BlockIo
  import opened Commands

  // The bytes before the head.
  function Used(c: Cart): nat
    requires c.Ok()
  {
    |Bytes(c.tapes[c.cur][..c.pos])|
  }

  // Each packing is that algorithm, both ways.
  lemma PackedAsSaid(codec: Codec, x: seq<byte>)
    ensures codec.Pack(Raw, x) == x == codec.Unpack(Raw, x)
    ensures codec.Pack(Lzo, x) == codec.lzo(x) && codec.Unpack(Lzo, x) == codec.unlzo(x)
    ensures codec.Pack(Zlib, x) == codec.zlib(x) && codec.Unpack(Zlib, x) == codec.unzlib(x)
  {
  }

  // One write of x. At or past the capacity nothing happens. Past the last block
  // number nothing happens either, with nothing to report. A block whose data
  // does not reach the medium leaves the tape cut at the head. A whole block
  // replaces everything from the head on.
  lemma WriteLeaves(d: Drive, c: Cart, x: seq<byte>, fault: Fault)
    requires c.Ok() && c.cur < |d.capacities|
    ensures var (r, s) := WriteOutcome(d, c, x, fault);
      var tape, cut := c.tapes[c.cur], c.tapes[c.cur][..c.pos];
      && (s == VolumeOverflow <==> Used(c) >= d.capacities[c.cur])
      && (s == NotWritten <==> Used(c) < d.capacities[c.cur] && c.pos == |tape| && c.pos > 0xffff_fff0)
      && (s == VolumeOverflow || s == NotWritten ==> r == c)
      && (s == WriteFailed <==> s != VolumeOverflow && s != NotWritten && fault.Short?)
      && (s == WriteFailed ==> r.tapes == c.tapes[c.cur := cut] && r.pos == c.pos && r.cur == c.cur)
      && (s == Quiet || s == EarlyWarning || s == ProgEarlyWarning ==>
          && r.tapes == c.tapes[c.cur := cut + [Block(d.codec.Pack(d.packing, x), |x|, d.packing, d.codec.crc(x))]]
          && r.pos == c.pos + 1 && r.cur == c.cur)
  {
    assert c.tapes[c.cur][..c.pos] + [] == c.tapes[c.cur][..c.pos];
  }

  // The warnings of a whole block, by where it ends: the early warning within
  // its size of the capacity, the programmable one within both sizes.
  lemma WriteWarns(d: Drive, c: Cart, x: seq<byte>)
    requires c.Ok() && c.cur < |d.capacities| && c.pos <= MAX_BLOCK && Used(c) < d.capacities[c.cur]
    ensures var s := WriteOutcome(d, c, x, Sound).1;
      var end := Used(c) + |d.codec.Pack(d.packing, x)|; var capacity := d.capacities[c.cur];
      && (s == EarlyWarning <==> x != [] && d.earlyWarning && end + d.earlyWarningSize >= capacity)
      && (s == ProgEarlyWarning <==>
          && x != [] && !(d.earlyWarning && end + d.earlyWarningSize >= capacity)
          && d.progEarlyWarning && end + d.earlyWarningSize + d.progEarlyWarningSize >= capacity)
      && (s == EarlyWarning || s == ProgEarlyWarning || s == Quiet)
  {
    var cut, o := c.Objs()[..c.pos], d.codec.Encode(d.packing, x);
    BytesAppend(cut, o);
    assert (cut + [o])[..c.pos + 1] == cut + [o];
  }

  // A capacity of 1000 with a warning at 100 before its end: 450 bytes are
  // written quietly, 900 with the warning.
  lemma WarnsAt900(d: Drive, c: Cart, x: seq<byte>)
    requires c == Cart([[]], 0, 0, true, DataMedium) && d.capacities == [1000] && d.packing.Raw?
    requires d.earlyWarning && d.earlyWarningSize == 100 && !d.progEarlyWarning
    ensures |x| == 450 ==> WriteOutcome(d, c, x, Sound).1 == Quiet
    ensures |x| == 900 ==> WriteOutcome(d, c, x, Sound).1 == EarlyWarning
  {
    assert c.tapes[c.cur][..0] == [];
    WriteWarns(d, c, x);
  }

  // Where a WRITE(6) stops: at the first block with something to report, after
  // n that had nothing; failAt is the block whose data does not reach the medium.
  lemma {:induction false} WriteStops(
    d: Drive, c: Cart, x: seq<byte>, count: nat, failAt: nat, bytes: nat, n: nat, mid: Cart)
    requires c.Ok() && n < count && n <= failAt && BlocksWritten(d, c, x, n, n, 0) == (mid, Quiet)
    requires var s := WriteOutcome(d, mid, x, if failAt == n then Short(bytes) else Sound).1;
      s != Quiet && s != NotWritten
    ensures BlocksWritten(d, c, x, count, failAt, bytes) ==
      WriteOutcome(d, mid, x, if failAt == n then Short(bytes) else Sound)
    decreases n
  {
    if n > 0 {
      var (after, _) := WriteOutcome(d, c, x, Sound);
      WriteStops(d, after, x, count - 1, failAt - 1, bytes, n - 1, mid);
    }
  }

  // Past the last block number WRITE(6) does nothing, and says nothing of it.
  lemma {:induction false} WriteBeyondNumbers(d: Drive, c: Cart, x: seq<byte>, count: nat, failAt: nat, bytes: nat)
    requires c.Ok() && c.cur < |d.capacities| && Used(c) < d.capacities[c.cur]
    requires c.pos == |c.tapes[c.cur]| && c.pos > 0xffff_fff0
    ensures BlocksWritten(d, c, x, count, failAt, bytes) == (c, Quiet)
    decreases count
  {
    if count > 0 {
      WriteLeaves(d, c, x, if failAt == 0 then Short(bytes) else Sound);
      WriteBeyondNumbers(d, c, x, count - 1, if failAt == 0 then 0 else failAt - 1, bytes);
    }
  }

  // --------------------------------------------------------------- reading

  // A block is sound when its bytes unpack to the size and the checksum that
  // its header gives.
  predicate Matches(codec: Codec, o: Object)
    requires o.Block?
  {
    var x := codec.Unpack(o.packing, o.stored);
    |x| == o.size && codec.crc(x) == o.crc
  }

  // One read: at end of data, at a filemark, and at a block, sound or not. No
  // tape changes, and no read but one at end of data, or of nothing, stays.
  lemma ReadReports(codec: Codec, c: Cart, request: nat, sili: bool)
    requires c.Ok() && request > 0
    ensures var (r, got, s) := ReadOutcome(codec, c, request, sili); var tape := c.tapes[c.cur];
      && r.tapes == c.tapes && r.cur == c.cur
      && (c.pos == |tape| ==> r == c && got == [] && s == EndOfDataRead(request))
      && (c.pos < |tape| ==> r.pos == c.pos + 1)
      && (c.pos < |tape| && tape[c.pos].Filemark? ==> got == [] && s == FilemarkRead(request))
      && (c.pos < |tape| && tape[c.pos].Block? && !Matches(codec, tape[c.pos]) ==> got == [] && s == ReadError)
      && (c.pos < |tape| && tape[c.pos].Block? && Matches(codec, tape[c.pos]) ==>
          var o := tape[c.pos]; var x := codec.Unpack(o.packing, o.stored);
          && got == (if |x| > request then x[..request] else x)
          && s == (if |x| < request || (|x| > request && !sili) then IncorrectLength(request - |x|)
                   else NothingToReport))
  {
    if c.pos < |c.tapes[c.cur]| && c.tapes[c.cur][c.pos].Filemark? {
      assert BlocksForw(c.Objs(), c.pos, 1) == BlockWalk(c.pos + 1, 1, AtMark);
    }
  }

  lemma ReadOfNothing(codec: Codec, c: Cart, sili: bool)
    requires c.Ok()
    ensures ReadOutcome(codec, c, 0, sili) == (c, [], NothingToReport)
  {
  }

  // A block that is what was written but for its checksum or its size is
  // refused, whatever the packing.
  lemma DamagedBlockRefused(codec: Codec, packing: Packing, x: seq<byte>, size: nat, crc: nat, request: nat)
    requires codec.Lossless() && request > 0 && (size != |x| || crc != codec.crc(x))
    ensures var c := Cart([[Block(codec.Pack(packing, x), size, packing, crc)]], 0, 0, true, DataMedium);
      var (_, got, s) := ReadOutcome(codec, c, request, false); got == [] && s == ReadError
  {
    var o := Block(codec.Pack(packing, x), size, packing, crc);
    var c := Cart([[o]], 0, 0, true, DataMedium);
    ReadReports(codec, c, request, false);
    assert codec.Unpack(packing, o.stored) == x;
  }

  // Of two blocks that are both read, the later one with something to report is
  // the one reported.
  lemma LatestReported(codec: Codec, c: Cart, request: nat)
    requires c.Ok()
    ensures var (mid, first, s) := ReadOutcome(codec, c, request, false);
      var (end, second, t) := ReadOutcome(codec, mid, request, false);
      first != [] && second != [] ==>
        BlocksRead(codec, c, request, 2, true, false, NothingToReport) ==
          (end, first + second, if t == NothingToReport then s else t)
  {
    var (mid, first, s) := ReadOutcome(codec, c, request, false);
    var (end, second, t) := ReadOutcome(codec, mid, request, false);
    if first != [] && second != [] {
      var last := Later(Later(NothingToReport, s), t);
      assert BlocksRead(codec, end, request, 0, true, false, last) == (end, [], last);
      assert BlocksRead(codec, mid, request, 1, true, false, s) == (end, second + [], last);
      assert second + [] == second;
    }
  }

  // A fixed read of more blocks stops at once where the first delivers nothing,
  // and reports how many it did not read.
  lemma FixedReadOfNothing(codec: Codec, c: Cart, request: nat, count: nat)
    requires c.Ok() && count > 0
    ensures var (after, got, s) := ReadOutcome(codec, c, request, false);
      var (r, data, t) := BlocksRead(codec, c, request, count, true, false, NothingToReport);
      got == [] ==>
        && r == after && data == []
        && (s.EndOfDataRead? ==> t == EndOfDataRead(count)) && (s.FilemarkRead? ==> t == FilemarkRead(count))
        && (s.IncorrectLength? ==> t == IncorrectLength(count)) && (s == ReadError ==> t == ReadError)
  {
  }
}
