// Write-once tapes: what runs of commands can and cannot do to the data on them.

module Worm {
  import opened Files
  import opened Tape
  import opened CartModel
  import opened BlockIo
  import opened Commands

  // The data blocks of a tape, in order.
  function DataOf(objs: seq<Object>): seq<Object> {
    if objs == [] then []
    else
      var k := |objs| - 1;
      if objs[k].Block? then DataOf(objs[..k]) + [objs[k]] else DataOf(objs[..k])
  }

  lemma {:induction false} DataPrefix(objs: seq<Object>, k: nat)
    requires k <= |objs|
    ensures DataOf(objs[..k]) <= DataOf(objs)
  {
    if k == |objs| {
      assert objs[..k] == objs;
    } else {
      assert objs[..|objs| - 1][..k] == objs[..k];
      DataPrefix(objs[..|objs| - 1], k);
    }
  }

  lemma {:induction false} DataOfMarks(n: nat)
    ensures DataOf(Repeat(Filemark, n)) == []
  {
    if n > 0 {
      assert Repeat(Filemark, n)[..n - 1] == Repeat(Filemark, n - 1);
      DataOfMarks(n - 1);
    }
  }

  // The write flag is up only where writing removes no data.
  predicate Safe(c: Cart) {
    c.Ok() && c.medium.WormMedium? && (c.ok ==> c.AtEod() || (c.pos == 0 && Blank(c.Objs())))
  }

  // No partition loses or alters a data block.
  predicate Keeps(c: Cart, r: Cart) {
    |c.tapes| == |r.tapes| && forall i :: 0 <= i < |c.tapes| ==> DataOf(c.tapes[i]) <= DataOf(r.tapes[i])
  }

  lemma KeepsAgain(a: Cart, b: Cart, c: Cart)
    requires Keeps(a, b) && Keeps(b, c)
    ensures Keeps(a, c)
  {
  }

  // The one way to lose data: writing filemarks over it from the beginning.
  predicate Destroys(c: Cart, cmd: Command)
    requires c.Ok()
  {
    cmd.WriteMarks? && cmd.count > 0 && c.pos == 0 && DataOf(c.Objs()) != []
  }

  // Every rewound WORM tape is a safe place to start.
  lemma RewoundIsSafe(c: Cart)
    requires c.Ok() && c.medium.WormMedium?
    ensures Safe(Rewound(c)) && Keeps(c, Rewound(c))
  {
  }

  // Where the flag is up, what a write cuts off is not data.
  lemma WriteKeeps(c: Cart, more: seq<Object>)
    requires Safe(c) && c.ok
    ensures Safe(Written(c, more)) && Keeps(c, Written(c, more))
  {
    var objs := c.Objs();
    DataPrefix(objs[..c.pos] + more, c.pos);
    assert (objs[..c.pos] + more)[..c.pos] == objs[..c.pos];
    if c.AtEod() {
      assert objs[..c.pos] == objs;
    } else {
      DataOfMarks(1);
      assert objs == Repeat(Filemark, 1);
    }
  }

  lemma OutcomeKeeps(d: Drive, c: Cart, x: seq<byte>, fault: Fault)
    requires Safe(c) && c.ok
    ensures var after := WriteOutcome(d, c, x, fault).0; Safe(after) && after.ok && Keeps(c, after)
  {
    WriteKeeps(c, []);
    WriteKeeps(c, [d.codec.Encode(d.packing, x)]);
  }

  lemma {:induction false} BlocksKeep(d: Drive, c: Cart, x: seq<byte>, count: nat, failAt: nat, bytes: nat)
    requires Safe(c) && c.ok
    ensures var r := BlocksWritten(d, c, x, count, failAt, bytes).0; Safe(r) && Keeps(c, r)
    decreases count
  {
    if count > 0 {
      var fault := if failAt == 0 then Short(bytes) else Sound;
      OutcomeKeeps(d, c, x, fault);
      var after := WriteOutcome(d, c, x, fault).0;
      var more := if failAt == 0 then 0 else failAt - 1;
      BlocksKeep(d, after, x, count - 1, more, bytes);
      KeepsAgain(c, after, BlocksWritten(d, after, x, count - 1, more, bytes).0);
    }
  }

  lemma CheckKeepsSafe(c: Cart, protect: bool)
    requires Safe(c)
    ensures Safe(Checked(c, protect)) && Keeps(c, Checked(c, protect))
  {
  }

  // The filemarks that destroy data are written whatever the flag says.
  lemma MarksStep(d: Drive, c: Cart, count: nat)
    requires Safe(c) && Posed(d, c, WriteMarks(count))
    ensures var r := Exec(d, c, WriteMarks(count));
      Safe(r) && (Keeps(c, r) <==> !Destroys(c, WriteMarks(count)))
  {
    var checked := Checked(c, d.writeProtect);
    if count > 0 && MarksGoAhead(d, c) {
      var marks := Repeat(Filemark, count);
      var r := Written(checked, marks);
      assert Safe(r);
      if c.pos == 0 {
        DataOfMarks(count);
        assert c.Objs()[..0] + marks == marks;
        assert r.tapes[c.cur] == marks;
        assert DataOf(c.Objs()) == [] ==> Keeps(c, r);
      } else {
        WriteKeeps(checked, marks);
      }
    }
  }

  lemma ToBlockIsSafe(c: Cart, k: nat)
    requires c.Ok() && c.medium.WormMedium?
    ensures Safe(ToBlock(c, k)) && ToBlock(c, k).tapes == c.tapes
  {
  }

  lemma PlacedIsSafe(c: Cart, k: nat)
    requires c.Ok() && c.medium.WormMedium?
    ensures Safe(Seek(Guarded(c), k)) && Seek(Guarded(c), k).tapes == c.tapes
  {
  }

  lemma MovedIsSafe(c: Cart, plan: Plan)
    requires c.Ok() && c.medium.WormMedium?
    ensures Safe(Moved(c, plan)) && Moved(c, plan).tapes == c.tapes
  {
    match plan {
      case GoTo(k) => ToBlockIsSafe(c, k);
      case PlaceAt(k, _) => PlacedIsSafe(c, k);
    }
  }

  // Spacing drops the flag before it moves.
  lemma SpacingIsSafe(c: Cart, n: int)
    requires c.Ok() && c.medium.WormMedium? && n != 0
    ensures Safe(SpacedBlocks(c, n)) && SpacedBlocks(c, n).tapes == c.tapes
    ensures Safe(SpacedMarks(c, n)) && SpacedMarks(c, n).tapes == c.tapes
  {
    if n > 0 {
      MovedIsSafe(c, BlocksForwPlan(c.Objs(), c.pos, n));
      MarksForwByMap(c, n);
      MovedIsSafe(c, MarksForwPlan(c.Objs(), c.pos, n));
    } else {
      MovedIsSafe(c, BlocksBackPlan(c.Objs(), c.pos, -n));
      MarksBackByMap(c, -n);
      MovedIsSafe(c, MarksBackPlan(c.Objs(), c.pos, -n));
    }
  }

  lemma ReadIsSafe(codec: Codec, c: Cart, request: nat, sili: bool)
    requires Safe(c)
    ensures var r := ReadOutcome(codec, c, request, sili).0; Safe(r) && r.tapes == c.tapes
  {
    if !c.AtEod() && c.Objs()[c.pos].Filemark? {
      PlacedIsSafe(c, c.pos + 1);
    }
  }

  lemma {:induction false} ReadsAreSafe(
    codec: Codec, c: Cart, request: nat, count: nat, fixed: bool, sili: bool, last: ReadSense)
    requires Safe(c)
    ensures var r := BlocksRead(codec, c, request, count, fixed, sili, last).0; Safe(r) && r.tapes == c.tapes
    decreases count
  {
    if count > 0 {
      ReadIsSafe(codec, c, request, sili);
      var (after, _, s) := ReadOutcome(codec, c, request, sili);
      ReadsAreSafe(codec, after, request, count - 1, fixed, sili, Later(last, s));
    }
  }

  // Commands that only move the head.
  lemma MoveIsSafe(d: Drive, c: Cart, cmd: Command)
    requires Safe(c) && Posed(d, c, cmd)
    requires !cmd.Write? && !cmd.WriteMarks? && !cmd.Erase?
    ensures Safe(Exec(d, c, cmd)) && Exec(d, c, cmd).tapes == c.tapes
  {
    match cmd {
      case Read(request, count, fixed, sili) => ReadsAreSafe(d.codec, c, request, count, fixed, sili, NothingToReport);
      case SpaceBlocks(n) => if n != 0 { SpacingIsSafe(c, n); }
      case SpaceMarks(n) => if n != 0 { SpacingIsSafe(c, n); }
      case Locate(partition, number) => ToBlockIsSafe(Changed(c, partition), number);
      case SpaceEnd =>
      case Rewind =>
    }
  }

  // One command keeps the flag safe, and loses data exactly when it is the
  // destroying one.
  lemma StepIsSafe(d: Drive, c: Cart, cmd: Command)
    requires Safe(c) && Posed(d, c, cmd)
    ensures Safe(Exec(d, c, cmd))
    ensures Keeps(c, Exec(d, c, cmd)) <==> !Destroys(c, cmd)
  {
    if cmd.WriteMarks? {
      MarksStep(d, c, cmd.count);
    } else if cmd.Write? {
      WriteStep(d, c, cmd);
    } else if cmd.Erase? {
      WriteStep(d, c, cmd);
    } else {
      MoveIsSafe(d, c, cmd);
    }
  }

  lemma WriteStep(d: Drive, c: Cart, cmd: Command)
    requires Safe(c) && Posed(d, c, cmd) && (cmd.Write? || cmd.Erase?)
    ensures Safe(Exec(d, c, cmd)) && Keeps(c, Exec(d, c, cmd))
  {
    var checked := Checked(c, d.writeProtect);
    CheckKeepsSafe(c, d.writeProtect);
    if checked.ok {
      if cmd.Write? {
        BlocksKeep(d, checked, cmd.data[..cmd.size], cmd.count, cmd.failAt, cmd.bytes);
      } else {
        WriteKeeps(checked, []);
      }
    }
  }

  ghost predicate NeverDestroys(d: Drive, c: Cart, cmds: seq<Command>)
    requires c.Ok() && AllPosed(d, c, cmds)
    decreases |cmds|
  {
    cmds == [] || (!Destroys(c, cmds[0]) && NeverDestroys(d, Exec(d, c, cmds[0]), cmds[1..]))
  }

  ghost predicate KeepsThroughout(d: Drive, c: Cart, cmds: seq<Command>)
    requires c.Ok() && AllPosed(d, c, cmds)
    decreases |cmds|
  {
    cmds == [] || (Keeps(c, Exec(d, c, cmds[0])) && KeepsThroughout(d, Exec(d, c, cmds[0]), cmds[1..]))
  }

  // A run loses no data at any step if and only if it never writes filemarks
  // at the beginning of a tape that holds data; then all data there was at
  // the start is there at the end.
  lemma {:induction false} RunKeepsData(d: Drive, c: Cart, cmds: seq<Command>)
    requires Safe(c) && AllPosed(d, c, cmds)
    ensures Safe(Run(d, c, cmds))
    ensures KeepsThroughout(d, c, cmds) <==> NeverDestroys(d, c, cmds)
    ensures NeverDestroys(d, c, cmds) ==> Keeps(c, Run(d, c, cmds))
    decreases |cmds|
  {
    if cmds != [] {
      StepIsSafe(d, c, cmds[0]);
      var next := Exec(d, c, cmds[0]);
      RunKeepsData(d, next, cmds[1..]);
      if NeverDestroys(d, c, cmds) {
        KeepsAgain(c, next, Run(d, c, cmds));
      }
    }
  }

  // The promise as it is made to an initiator: from a rewound WORM tape on.
  lemma WormPromise(d: Drive, c: Cart, cmds: seq<Command>)
    requires c.Ok() && c.medium.WormMedium? && AllPosed(d, Rewound(c), cmds)
    requires NeverDestroys(d, Rewound(c), cmds)
    ensures Keeps(c, Run(d, Rewound(c), cmds))
  {
    RewoundIsSafe(c);
    RunKeepsData(d, Rewound(c), cmds);
  }

  // One block and a rewind, and a filemark erases the block, while the
  // initiator is told that the attempt was refused.
  lemma FilemarkErasesWormData(d: Drive, o: Object)
    requires o.Block? && d.Capacity(0) > 0
    ensures var c := Rewound(Cart([[o]], 0, 1, true, WormMedium));
      && !c.ok && Exec(d, c, WriteMarks(1)).tapes == [[Filemark]]
      && Reply(d, c, WriteMarks(1)).0 == OverwriteAttempt
  {
    var c := Rewound(Cart([[o]], 0, 1, true, WormMedium));
    assert Repeat(Filemark, 1) == [Filemark];
    assert [o][..0] + [Filemark] == [Filemark];
    var r := Exec(d, c, WriteMarks(1));
    assert r.Objs()[..r.pos] == [] + [Filemark];
    BytesAppend([], Filemark);
  }
}
