// How far writing can run past a partition's capacity, and the warning that
// comes before a refusal.

module Capacity {
  import opened Basics
  import opened Files
  import opened Tape
  import opened CartModel
  import opened BlockIo
  import opened Commands
  import opened Geometry

  // No partition holds more than its capacity and the rest of one largest block.
  predicate Bounded(d: Drive, c: Cart, largest: nat) {
    c.Ok() && forall i :: 0 <= i < |c.tapes| ==> |Bytes(c.tapes[i])| < d.Capacity(i) + largest
  }

  lemma {:induction false} NoBytesInMarks(objs: seq<Object>, n: nat)
    ensures Bytes(objs + Repeat(Filemark, n)) == Bytes(objs)
    decreases n
  {
    if n == 0 {
      assert objs + Repeat(Filemark, 0) == objs;
    } else {
      OneMore(objs, n - 1);
      BytesAppend(objs + Repeat(Filemark, n - 1), Filemark);
      NoBytesInMarks(objs, n - 1);
    }
  }

  // One write, from anywhere below the capacity, ends less than a block past it.
  lemma OutcomeIsBounded(d: Drive, c: Cart, x: seq<byte>, fault: Fault, largest: nat)
    requires Bounded(d, c, largest) && |d.codec.Pack(d.packing, x)| <= largest
    ensures Bounded(d, WriteOutcome(d, c, x, fault).0, largest)
  {
    var o := d.codec.Encode(d.packing, x);
    var cut := c.Objs()[..c.pos];
    BytesPrefix(c.Objs(), c.pos);
    BytesAppend(cut, o);
    assert cut + [] == cut;
  }

  lemma {:induction false} BlocksAreBounded(
    d: Drive, c: Cart, x: seq<byte>, count: nat, failAt: nat, bytes: nat, largest: nat)
    requires Bounded(d, c, largest) && |d.codec.Pack(d.packing, x)| <= largest
    ensures Bounded(d, BlocksWritten(d, c, x, count, failAt, bytes).0, largest)
    decreases count
  {
    if count > 0 {
      var fault := if failAt == 0 then Short(bytes) else Sound;
      OutcomeIsBounded(d, c, x, fault, largest);
      var after := WriteOutcome(d, c, x, fault).0;
      BlocksAreBounded(d, after, x, count - 1, if failAt == 0 then 0 else failAt - 1, bytes, largest);
    }
  }

  predicate SmallBlocks(d: Drive, cmd: Command, largest: nat) {
    cmd.Write? && cmd.size <= |cmd.data| ==> |d.codec.Pack(d.packing, cmd.data[..cmd.size])| <= largest
  }

  lemma {:induction false} ReadsKeepTapes(
    codec: Codec, c: Cart, request: nat, count: nat, fixed: bool, sili: bool, last: ReadSense)
    requires c.Ok()
    ensures var r := BlocksRead(codec, c, request, count, fixed, sili, last).0; r.tapes == c.tapes && r.cur == c.cur
    decreases count
  {
    if count > 0 {
      var (after, _, s) := ReadOutcome(codec, c, request, sili);
      ReadsKeepTapes(codec, after, request, count - 1, fixed, sili, Later(last, s));
    }
  }

  // Every command but the writing ones leaves the tapes alone.
  lemma TapesKept(d: Drive, c: Cart, cmd: Command)
    requires c.Ok() && Posed(d, c, cmd) && !cmd.Write? && !cmd.WriteMarks? && !cmd.Erase?
    ensures Exec(d, c, cmd).tapes == c.tapes
  {
    if cmd.Read? {
      ReadsKeepTapes(d.codec, c, cmd.request, cmd.count, cmd.fixed, cmd.sili, NothingToReport);
    }
  }

  lemma WriteIsBounded(d: Drive, c: Cart, cmd: Command, largest: nat)
    requires Bounded(d, c, largest) && Posed(d, c, cmd) && SmallBlocks(d, cmd, largest) && cmd.Write?
    ensures Bounded(d, Exec(d, c, cmd), largest)
  {
    var checked := Checked(c, d.writeProtect);
    assert Bounded(d, checked, largest);
    if checked.ok {
      BlocksAreBounded(d, checked, cmd.data[..cmd.size], cmd.count, cmd.failAt, cmd.bytes, largest);
    }
  }

  // Writing that takes no more bytes than it cuts off.
  lemma WrittenIsBounded(d: Drive, c: Cart, more: seq<Object>, largest: nat)
    requires Bounded(d, c, largest) && Bytes(c.Objs()[..c.pos] + more) == Bytes(c.Objs()[..c.pos])
    ensures Bounded(d, Written(c, more), largest)
  {
    BytesPrefix(c.Objs(), c.pos);
  }

  lemma MarksAreBounded(d: Drive, c: Cart, cmd: Command, largest: nat)
    requires Bounded(d, c, largest) && Posed(d, c, cmd) && cmd.WriteMarks?
    ensures Bounded(d, Exec(d, c, cmd), largest)
  {
    var checked := Checked(c, d.writeProtect);
    assert Bounded(d, checked, largest);
    if cmd.count > 0 && MarksGoAhead(d, c) {
      NoBytesInMarks(c.Objs()[..c.pos], cmd.count);
      WrittenIsBounded(d, checked, Repeat(Filemark, cmd.count), largest);
    }
  }

  lemma EraseIsBounded(d: Drive, c: Cart, cmd: Command, largest: nat)
    requires Bounded(d, c, largest) && Posed(d, c, cmd) && cmd.Erase?
    ensures Bounded(d, Exec(d, c, cmd), largest)
  {
    var checked := Checked(c, d.writeProtect);
    assert Bounded(d, checked, largest);
    if checked.ok && c.pos == 0 {
      assert c.Objs()[..c.pos] + [] == c.Objs()[..c.pos];
      WrittenIsBounded(d, checked, [], largest);
    }
  }

  lemma StepIsBounded(d: Drive, c: Cart, cmd: Command, largest: nat)
    requires Bounded(d, c, largest) && Posed(d, c, cmd) && SmallBlocks(d, cmd, largest)
    ensures Bounded(d, Exec(d, c, cmd), largest)
  {
    match cmd
    case Write(_, _, _, _, _) => WriteIsBounded(d, c, cmd, largest);
    case WriteMarks(_) => MarksAreBounded(d, c, cmd, largest);
    case Erase => EraseIsBounded(d, c, cmd, largest);
    case _ => TapesKept(d, c, cmd);
  }

  // Over any run of commands whose blocks are no larger than largest on disk.
  lemma {:induction false} RunIsBounded(d: Drive, c: Cart, cmds: seq<Command>, largest: nat)
    requires Bounded(d, c, largest) && AllPosed(d, c, cmds)
    requires forall i :: 0 <= i < |cmds| ==> SmallBlocks(d, cmds[i], largest)
    ensures Bounded(d, Run(d, c, cmds), largest)
    decreases |cmds|
  {
    if cmds != [] {
      StepIsBounded(d, c, cmds[0], largest);
      RunIsBounded(d, Exec(d, c, cmds[0]), cmds[1..], largest);
    }
  }

  // -------------------------------------------------- the whole cartridge

  function Sizes(c: Cart, n: nat): (r: seq<nat>)
    requires n <= |c.tapes|
    ensures |r| == n
  {
    seq(n, i requires 0 <= i < n => |Bytes(c.tapes[i])|)
  }

  lemma ToldFits(medium: nat, num: nat, p: Page)
    requires p.Valid() && 1 <= num <= MAX_PARTITIONS && (num > 1 ==> FitsIn64(p.units, num))
    ensures Sum(Told(medium, num, p)) <= medium
  {
    if num == 1 {
      assert Told(medium, num, p)[..0] == [];
      assert Sum(Told(medium, num, p)) == Sum([]) + medium;
    } else {
      var _ := CapacitiesFit(medium, num, p);
    }
  }

  lemma {:induction false} SumBelowEach(a: seq<nat>, b: seq<nat>, largest: nat)
    requires |a| == |b| > 0 && forall k :: 0 <= k < |a| ==> a[k] < b[k] + largest
    ensures Sum(a) < Sum(b) + |a| * largest
  {
    var n := |a| - 1;
    assert |a| * largest == n * largest + largest;
    if n > 0 {
      SumBelowEach(a[..n], b[..n], largest);
    } else {
      assert a[..n] == [] && b[..n] == [];
    }
  }

  // With the capacities the Medium Partition page deals out, all partitions
  // together never hold the medium and one largest block each.
  lemma CartridgeIsBounded(d: Drive, c: Cart, cmds: seq<Command>, largest: nat, medium: nat, p: Page)
    requires Bounded(d, c, largest) && AllPosed(d, c, cmds)
    requires forall i :: 0 <= i < |cmds| ==> SmallBlocks(d, cmds[i], largest)
    requires p.Valid() && 1 <= |c.tapes| <= MAX_PARTITIONS && (|c.tapes| > 1 ==> FitsIn64(p.units, |c.tapes|))
    requires d.capacities == Told(medium, |c.tapes|, p)
    ensures Sum(Sizes(Run(d, c, cmds), |c.tapes|)) < medium + |c.tapes| * largest
  {
    RunIsBounded(d, c, cmds, largest);
    ToldFits(medium, |c.tapes|, p);
    SumBelowEach(Sizes(Run(d, c, cmds), |c.tapes|), d.capacities, largest);
  }

  // ------------------------------------------------------------ the warning

  // A run that appends: blocks, none empty and none larger on disk than the
  // warning zone, and filemarks.
  predicate Appends(d: Drive, cmd: Command) {
    cmd.WriteMarks? ||
    (cmd.Write? && (cmd.count > 0 ==>
      0 < cmd.size <= |cmd.data| && |d.codec.Pack(d.packing, cmd.data[..cmd.size])| <= d.earlyWarningSize))
  }

  // A head before the warning zone of its partition.
  predicate Unwarned(d: Drive, c: Cart) {
    c.Ok() && d.earlyWarning && Offset(c) + d.earlyWarningSize < d.Capacity(c.cur)
  }

  lemma WriteAdvances(d: Drive, c: Cart, x: seq<byte>, fault: Fault)
    requires c.Ok()
    ensures var (after, s) := WriteOutcome(d, c, x, fault);
      after.cur == c.cur && after.pos >= c.pos &&
      Offset(after) == if s.VolumeOverflow? || s.NotWritten? || s.WriteFailed? then Offset(c)
                       else Offset(c) + |d.codec.Pack(d.packing, x)|
  {
    var o := d.codec.Encode(d.packing, x);
    var cut := c.Objs()[..c.pos];
    BytesAppend(cut, o);
    assert (cut + [o])[..c.pos + 1] == cut + [o];
    assert cut + [] == cut;
  }

  // One WRITE(6) that starts before the zone is not refused for want of room:
  // it stays before the zone, or ends with the warning, within the capacity.
  lemma {:induction false} BlocksWarn(d: Drive, c: Cart, x: seq<byte>, count: nat, failAt: nat, bytes: nat)
    requires Unwarned(d, c) && x != [] && |d.codec.Pack(d.packing, x)| <= d.earlyWarningSize
    ensures var (after, s) := BlocksWritten(d, c, x, count, failAt, bytes);
      && after.cur == c.cur && !s.VolumeOverflow?
      && (if s.EarlyWarning? then Offset(after) <= d.Capacity(c.cur) else Unwarned(d, after))
    decreases count
  {
    if count > 0 {
      var fault := if failAt == 0 then Short(bytes) else Sound;
      WriteAdvances(d, c, x, fault);
      var (after, s) := WriteOutcome(d, c, x, fault);
      if GoesOn(s) {
        BlocksWarn(d, after, x, count - 1, if failAt == 0 then 0 else failAt - 1, bytes);
      }
    }
  }

  lemma MarksAdvance(c: Cart, count: nat)
    requires c.Ok()
    ensures Offset(Written(c, Repeat(Filemark, count))) == Offset(c)
  {
    var r := Written(c, Repeat(Filemark, count));
    NoBytesInMarks(c.Objs()[..c.pos], count);
    assert r.Objs()[..r.pos] == c.Objs()[..c.pos] + Repeat(Filemark, count);
  }

  lemma AppendStep(d: Drive, c: Cart, cmd: Command)
    requires Unwarned(d, c) && Posed(d, c, cmd) && Appends(d, cmd)
    ensures var r := Exec(d, c, cmd); var a := Reply(d, c, cmd).0;
      && r.cur == c.cur && a != WriteEnded(VolumeOverflow)
      && (if a == WriteEnded(EarlyWarning) then Offset(r) <= d.Capacity(c.cur) else Unwarned(d, r))
  {
    var checked := Checked(c, d.writeProtect);
    assert Unwarned(d, checked);
    if cmd.WriteMarks? {
      MarksAdvance(checked, cmd.count);
    } else if checked.ok && cmd.count > 0 {
      BlocksWarn(d, checked, cmd.data[..cmd.size], cmd.count, cmd.failAt, cmd.bytes);
    }
  }

  // The tape after the first k commands of a run.
  function Midway(d: Drive, c: Cart, cmds: seq<Command>, k: nat): (r: Cart)
    requires c.Ok() && AllPosed(d, c, cmds) && k <= |cmds|
    ensures r.Succeeds(c)
    decreases k
  {
    if k == 0 then c else Midway(d, Exec(d, c, cmds[0]), cmds[1..], k - 1)
  }

  // A run of writes and filemarks, whole or failing, that starts before the
  // warning zone is warned by a command that still ends within the capacity
  // before any command of it is refused for want of room.
  lemma {:induction false} WarnedBeforeRefused(d: Drive, c: Cart, cmds: seq<Command>, n: nat) returns (k: nat)
    requires Unwarned(d, c) && AllPosed(d, c, cmds) && n < |cmds|
    requires forall i :: 0 <= i < |cmds| ==> Appends(d, cmds[i])
    requires Replies(d, c, cmds)[n].0 == WriteEnded(VolumeOverflow)
    ensures k < n && Replies(d, c, cmds)[k].0 == WriteEnded(EarlyWarning)
    ensures Offset(Midway(d, c, cmds, k + 1)) <= d.Capacity(c.cur)
    decreases |cmds|
  {
    AppendStep(d, c, cmds[0]);
    var next := Exec(d, c, cmds[0]);
    if Reply(d, c, cmds[0]).0 == WriteEnded(EarlyWarning) {
      k := 0;
      assert Midway(d, c, cmds, 1) == Midway(d, next, cmds[1..], 0);
    } else {
      assert Replies(d, c, cmds)[n] == Replies(d, next, cmds[1..])[n - 1];
      k := WarnedBeforeRefused(d, next, cmds[1..], n - 1);
      assert Replies(d, c, cmds)[k + 1] == Replies(d, next, cmds[1..])[k];
      k := k + 1;
    }
  }
}
