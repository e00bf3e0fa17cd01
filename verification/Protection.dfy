// Write protection over runs of commands, and the one way round it.

module Protection {
  import opened Files
  import opened Tape
  import opened CartModel
  import opened BlockIo
  import opened Commands
  import opened Capacity

  // WRITE FILEMARKS at block 0 of a WORM tape, where it would change anything.
  predicate Overwrites(c: Cart, cmd: Command)
    requires c.Ok()
  {
    cmd.WriteMarks? && cmd.count > 0 && c.medium.WormMedium? && c.pos == 0 && c.Objs() != Repeat(Filemark, cmd.count)
  }

  // With write protection a command changes a tape exactly when it is that one.
  lemma ProtectedStep(d: Drive, c: Cart, cmd: Command)
    requires c.Ok() && d.writeProtect && Posed(d, c, cmd)
    ensures Exec(d, c, cmd).tapes == c.tapes <==> !Overwrites(c, cmd)
  {
    if cmd.WriteMarks? {
      if cmd.count > 0 && MarksGoAhead(d, c) {
        assert c.Objs()[..0] + Repeat(Filemark, cmd.count) == Repeat(Filemark, cmd.count);
        assert Exec(d, c, cmd).tapes == c.tapes[c.cur := Repeat(Filemark, cmd.count)];
        assert Exec(d, c, cmd).tapes[c.cur] == Repeat(Filemark, cmd.count);
      }
    } else if !cmd.Write? && !cmd.Erase? {
      TapesKept(d, c, cmd);
    }
  }

  ghost predicate NeverOverwrites(d: Drive, c: Cart, cmds: seq<Command>)
    requires c.Ok() && AllPosed(d, c, cmds)
    decreases |cmds|
  {
    cmds == [] || (!Overwrites(c, cmds[0]) && NeverOverwrites(d, Exec(d, c, cmds[0]), cmds[1..]))
  }

  ghost predicate SameThroughout(d: Drive, c: Cart, cmds: seq<Command>)
    requires c.Ok() && AllPosed(d, c, cmds)
    decreases |cmds|
  {
    cmds == [] || (Exec(d, c, cmds[0]).tapes == c.tapes && SameThroughout(d, Exec(d, c, cmds[0]), cmds[1..]))
  }

  // Over any run with write protection, no step changes a tape if and only if
  // none is that command, and none is on media other than WORM.
  lemma {:induction false} RunIsProtected(d: Drive, c: Cart, cmds: seq<Command>)
    requires c.Ok() && d.writeProtect && AllPosed(d, c, cmds)
    ensures SameThroughout(d, c, cmds) <==> NeverOverwrites(d, c, cmds)
    ensures NeverOverwrites(d, c, cmds) ==> Run(d, c, cmds).tapes == c.tapes
    ensures !c.medium.WormMedium? ==> NeverOverwrites(d, c, cmds)
    decreases |cmds|
  {
    if cmds != [] {
      ProtectedStep(d, c, cmds[0]);
      RunIsProtected(d, Exec(d, c, cmds[0]), cmds[1..]);
    }
  }

  // A protected WORM tape of one block, at its beginning.
  lemma ProtectedBlockIsErased(d: Drive, o: Object)
    requires d.writeProtect && o.Block?
    ensures var c := Cart([[o]], 0, 0, false, WormMedium); Exec(d, c, WriteMarks(1)).tapes == [[Filemark]]
  {
    assert Repeat(Filemark, 1) == [Filemark];
    assert [o][..0] + [Filemark] == [Filemark];
  }
}
