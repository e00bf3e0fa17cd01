// Who may write where, what a command that may not is told, and what erasing
// and writing filemarks leave, in terms of the tape alone.

module Permission {
  import opened Files
  import opened Tape
  import opened CartModel
  import opened BlockIo
  import opened Commands
  import Capacity

  // The medium is writable, and WORM only at end of data or with the flag up.
  predicate MayWrite(d: Drive, c: Cart)
    requires c.Ok()
  {
    && !d.writeProtect && !c.medium.CleanMedium?
    && (c.medium.WormMedium? ==> c.pos == |c.tapes[c.cur]| || c.ok)
  }

  // Why not: a cleaning cartridge before all else, then what WORM forbids.
  predicate Refused(d: Drive, c: Cart, a: Answer)
    requires c.Ok()
  {
    && !MayWrite(d, c)
    && (a == CleaningCartridge <==> c.medium.CleanMedium?)
    && (a == OverwriteAttempt <==> c.medium.WormMedium? && c.pos < |c.tapes[c.cur]| && !c.ok)
    && (a == WriteProtected <==> !c.medium.CleanMedium? && (c.medium.WormMedium? ==> c.pos == |c.tapes[c.cur]| || c.ok))
    && (a == CleaningCartridge || a == OverwriteAttempt || a == WriteProtected)
  }

  // The current partition holds these objects, the head is here, and all else
  // of the tapes is as it was.
  predicate Holds(c: Cart, r: Cart, objs: seq<Object>, pos: nat)
    requires c.Ok()
  {
    r.tapes == c.tapes[c.cur := objs] && r.cur == c.cur && r.pos == pos
  }

  predicate Stays(c: Cart, r: Cart) {
    r.tapes == c.tapes && r.cur == c.cur && r.pos == c.pos
  }

  // WRITE of any blocks goes ahead exactly where writing is permitted; where it
  // is not, nothing moves or changes and the initiator is told why.
  lemma WritePermitted(d: Drive, c: Cart, cmd: Command)
    requires c.Ok() && Posed(d, c, cmd) && cmd.Write?
    ensures MayWrite(d, c) <==> Reply(d, c, cmd).0.WriteEnded?
    ensures !MayWrite(d, c) ==> Stays(c, Exec(d, c, cmd)) && Refused(d, c, Reply(d, c, cmd).0)
  {
  }

  // ERASE empties the partition exactly from its beginning and where writing is
  // permitted, and says so.
  lemma EraseEmpties(d: Drive, c: Cart)
    requires c.Ok()
    ensures var r, a := Exec(d, c, Erase), Reply(d, c, Erase).0;
      && (a == Fine <==> MayWrite(d, c) && c.pos == 0)
      && (a == Fine ==> Holds(c, r, [], 0))
      && (a != Fine ==> Stays(c, r))
      && (a == NotAtBeginning <==> MayWrite(d, c) && c.pos > 0)
      && (!MayWrite(d, c) ==> Refused(d, c, a))
  {
    assert c.pos == 0 ==> c.Objs()[..c.pos] + [] == [];
  }

  // WRITE FILEMARKS replaces everything from the head on by so many filemarks,
  // where writing is permitted, and at the beginning of a WORM tape.
  lemma MarksWritten(d: Drive, c: Cart, count: nat)
    requires c.Ok() && Posed(d, c, WriteMarks(count))
    ensures var r := Exec(d, c, WriteMarks(count));
      if count > 0 && (MayWrite(d, c) || (c.medium.WormMedium? && c.pos == 0))
      then Holds(c, r, c.tapes[c.cur][..c.pos] + seq(count, _ => Filemark), c.pos + count)
      else Stays(c, r)
  {
    assert Repeat(Filemark, count) == seq(count, _ => Filemark);
  }

  // It is told the end of the partition exactly when filemarks were written
  // behind so many bytes as it has room for; otherwise whether it was permitted.
  lemma MarksAnswered(d: Drive, c: Cart, count: nat)
    requires c.Ok() && Posed(d, c, WriteMarks(count)) && c.cur < |d.capacities|
    ensures var a := Reply(d, c, WriteMarks(count)).0;
      var full := |Bytes(c.tapes[c.cur][..c.pos])| >= d.capacities[c.cur];
      && (a == EndOfPartition <==>
          count > 0 && (MayWrite(d, c) || (c.medium.WormMedium? && c.pos == 0)) && full)
      && (a == Fine <==> MayWrite(d, c) && (count > 0 ==> !full))
      && (a != EndOfPartition && a != Fine ==> Refused(d, c, a))
  {
    Capacity.MarksAdvance(Checked(c, d.writeProtect), count);
  }

  // READ(6) is refused for a fixed length with suppressed length check, and on a
  // cleaning cartridge, and for nothing else.
  lemma ReadPermitted(d: Drive, c: Cart, cmd: Command)
    requires c.Ok() && Posed(d, c, cmd) && cmd.Read?
    ensures var a := Reply(d, c, cmd).0;
      && (a == InvalidField <==> cmd.fixed && cmd.sili)
      && (a == CleaningCartridge <==> !(cmd.fixed && cmd.sili) && c.medium.CleanMedium?)
      && (a.ReadEnded? <==> !(cmd.fixed && cmd.sili) && !c.medium.CleanMedium?)
      && (!a.ReadEnded? ==> Stays(c, Exec(d, c, cmd)) && Reply(d, c, cmd).1 == [])
  {
  }

  // ------------------------------------------- where a WORM tape can be written

  // After a rewind, exactly when it is blank or holds one lone filemark; other
  // media but cleaning cartridges always.
  lemma AfterRewind(d: Drive, c: Cart)
    requires c.Ok()
    ensures var r, objs := Exec(d, c, Rewind), c.tapes[c.cur];
      && r.tapes == c.tapes && r.cur == c.cur && r.pos == 0 && Reply(d, c, Rewind) == (SpaceEnded(Good), [])
      && (MayWrite(d, r) <==>
          !d.writeProtect && !c.medium.CleanMedium? && (c.medium.WormMedium? ==> objs == [] || objs == [Filemark]))
  {
  }

  // SPACE to end of data goes there, and there every medium but a cleaning
  // cartridge can be written.
  lemma AfterSpaceEnd(d: Drive, c: Cart)
    requires c.Ok()
    ensures var r := Exec(d, c, SpaceEnd);
      && r.tapes == c.tapes && r.cur == c.cur && r.pos == |c.tapes[c.cur]|
      && Reply(d, c, SpaceEnd) == (SpaceEnded(Good), [])
      && (MayWrite(d, r) <==> !d.writeProtect && !c.medium.CleanMedium?)
  {
  }

  // After LOCATE, exactly at end of data, or at the beginning of a lone filemark.
  lemma AfterLocate(d: Drive, c: Cart, partition: nat, number: nat)
    requires c.Ok() && partition < |c.tapes| && c.medium.WormMedium?
    ensures var r, objs := Exec(d, c, Locate(partition, number)), c.tapes[partition];
      MayWrite(d, r) <==> !d.writeProtect && (r.pos == |objs| || (r.pos == 0 && objs == [Filemark]))
  {
  }

  // After spacing, at end of data, and otherwise at most at the beginning of a
  // lone filemark.
  lemma AfterSpacing(d: Drive, c: Cart, cmd: Command)
    requires c.Ok() && Posed(d, c, cmd) && c.medium.WormMedium?
    requires (cmd.SpaceBlocks? || cmd.SpaceMarks?) && cmd.distance != 0
    ensures var r, objs := Exec(d, c, cmd), c.tapes[c.cur];
      && (MayWrite(d, r) ==> !d.writeProtect && (r.pos == |objs| || (r.pos == 0 && objs == [Filemark])))
      && (!d.writeProtect && r.pos == |objs| ==> MayWrite(d, r))
  {
  }

  // A format leaves so many empty partitions, the head at the beginning of the
  // first, ready to be written.
  lemma FormattedIs(d: Drive, c: Cart, count: nat)
    requires count > 0
    ensures var r := Formatted(c, count);
      && |r.tapes| == count && (forall i :: 0 <= i < count ==> r.tapes[i] == [])
      && r.cur == 0 && r.pos == 0 && r.medium == c.medium
      && (MayWrite(d, r) <==> !d.writeProtect && !c.medium.CleanMedium?)
  {
  }
}
