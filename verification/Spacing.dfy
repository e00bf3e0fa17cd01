// Where spacing over blocks and filemarks meets the step-by-step walk, and
// where it does not.

module Spacing {
  import opened Basics
  import opened Tape
  import opened CartModel
  import opened BlockIo
  import opened Commands

  // The walk back meets the nearest filemark behind the head first.
  lemma {:induction false} BackWalkByMark(objs: seq<Object>, pos: nat, count: nat)
    requires pos <= |objs|
    ensures var w := MarkBack(objs, pos);
      BlocksBack(objs, pos, count) ==
        if count == 0 then BlockWalk(pos, 0, Arrived)
        else if w.left == 0 && w.pos >= pos - count then BlockWalk(w.pos, count - (pos - 1 - w.pos), AtMark)
        else if count > pos then BlockWalk(0, count - pos, AtEnd)
        else BlockWalk(pos - count, 0, Arrived)
    ensures var w := MarkBack(objs, pos); w.left == 0 ==> w.pos < pos && objs[w.pos].Filemark?
    ensures MarkBack(objs, pos).left <= 1
  {
    if pos > 0 && !objs[pos - 1].Filemark? {
      BackWalkByMark(objs, pos - 1, if count == 0 then 0 else count - 1);
    }
  }

  // Spacing back by no more blocks than lie behind the head is the walk, and
  // leaves the drive in the same state.
  lemma BackWithinTape(c: Cart, count: nat)
    requires c.Ok() && c.pos < TWO_32 && count <= c.pos
    ensures BlocksBackLanding(c, count) == SpaceBlocksBack(c, count)
    ensures BlocksBackAnswer(c, count) ==
      if BlocksBack(c.Objs(), c.pos, count).stop.AtMark? then MarkSeen(count) else Good
  {
    BackWalkByMark(c.Objs(), c.pos, count);
    assert BackTarget(c.pos, count) == c.pos - count;
  }

  // Spacing back ends where the walk does exactly when it does not run off the
  // beginning, or the wrapped target is still not past what stops the walk.
  lemma BackMatchesWalk(c: Cart, count: nat)
    requires c.Ok() && c.pos < TWO_32
    ensures var w := MarkBack(c.Objs(), c.pos); var target := BackTarget(c.pos, count);
      BlocksBackLanding(c, count).pos == BlocksBack(c.Objs(), c.pos, count).pos <==>
        count <= c.pos || (if w.left == 0 then target <= w.pos else target == 0 || c.Objs() == [])
  {
    var w := MarkBack(c.Objs(), c.pos);
    var target := BackTarget(c.pos, count);
    BackWalkByMark(c.Objs(), c.pos, count);
    if count <= c.pos {
      BackWithinTape(c, count);
    } else if w.left == 0 {
      assert BlocksBack(c.Objs(), c.pos, count).pos == w.pos;
    } else {
      assert BlocksBack(c.Objs(), c.pos, count).pos == 0;
    }
  }

  // Running off the beginning, with any count, is reported as past the end of
  // data exactly when the wrapped target lies there, as it does for every count
  // SPACE(6) carries on a tape of fewer than 2^31 objects. Then the head ends at
  // end of data instead of at the beginning or on a filemark, which is harmless
  // only on an empty tape.
  lemma BackOffTheBeginning(c: Cart, count: nat)
    requires c.Ok() && c.pos < count
    ensures BlocksBackAnswer(c, count) == PastEndOfData <==> BackTarget(c.pos, count) > |c.Objs()|
    ensures BackTarget(c.pos, count) > |c.Objs()| ==>
      BlocksBackLanding(c, count).pos == |c.Objs()| &&
      (BlocksBackLanding(c, count).pos == BlocksBack(c.Objs(), c.pos, count).pos <==> c.Objs() == [])
    ensures |c.Objs()| < 0x8000_0000 && count <= 0x8000_0000 ==> BackTarget(c.pos, count) > |c.Objs()|
  {
    BackWalkByMark(c.Objs(), c.pos, count);
    if count <= 0x8000_0000 && |c.Objs()| < 0x8000_0000 {
      assert BackTarget(c.pos, count) == c.pos - count + TWO_32;
    }
  }

  // Spacing forward ends where the walk does exactly when the 32 bit target
  // does not wrap, or the wrapped one is still past what stops the walk.
  lemma ForwMatchesWalk(c: Cart, count: nat)
    requires c.Ok() && |c.Objs()| < TWO_32
    ensures var marks, i := Marks(c.Objs()), MarksBefore(c.Objs(), c.pos); var target := ForwTarget(c.pos, count);
      BlocksForwLanding(c, count).pos == BlocksForw(c.Objs(), c.pos, count).pos <==>
        c.pos + count < TWO_32 || (if i < |marks| then marks[i] < target else target >= |c.Objs()|)
  {
    BlocksForwLookup(c.Objs(), c.pos, count);
    MarksSorted(c.Objs());
    if c.pos + count < TWO_32 {
      BlocksForwByMap(c, count);
    } else {
      assert ForwTarget(c.pos, count) < c.pos + count;
    }
  }

  // SPACE over 2^32 blocks stays where it is, and reports nothing.
  lemma ForwAroundTheWorld(objs: seq<Object>, medium: MediumType)
    requires 0 < |objs| < TWO_32
    ensures var c := Cart([objs], 0, 0, true, medium);
      && BlocksForwLanding(c, TWO_32).pos == 0 && BlocksForwAnswer(c, TWO_32) == Good
      && BlocksForw(objs, 0, TWO_32).pos > 0
  {
    MarksSorted(objs);
    BlocksForwLookup(objs, 0, TWO_32);
  }

  // The information field reported at a filemark is never the number of
  // blocks not passed going forward; going back it is, exactly when the
  // filemark is the very next object and the 32 bit target stops there.
  lemma MarkResidual(c: Cart, count: nat)
    requires c.Ok() && |c.Objs()| <= MAX_BLOCK + 1
    ensures var w := BlocksForw(c.Objs(), c.pos, count);
      w.stop.AtMark? ==> BlocksForwAnswer(c, count) != MarkSeen(w.left)
    ensures var w := BlocksBack(c.Objs(), c.pos, count);
      w.stop.AtMark? ==>
        (BlocksBackAnswer(c, count) == MarkSeen(w.left) <==>
         w.pos == c.pos - 1 && count < TWO_32 && BackTarget(c.pos, count) <= w.pos)
  {
    MarkResidualForw(c, count);
    BackWalkByMark(c.Objs(), c.pos, count);
  }

  lemma MarkResidualForw(c: Cart, count: nat)
    requires c.Ok() && |c.Objs()| <= MAX_BLOCK + 1
    ensures var w := BlocksForw(c.Objs(), c.pos, count);
      w.stop.AtMark? ==> BlocksForwAnswer(c, count) != MarkSeen(w.left)
  {
    BlocksForwLookup(c.Objs(), c.pos, count);
    MarksSorted(c.Objs());
    MarksPrefix(c.Objs(), c.pos);
  }

  // Spacing forward over zero filemarks, as VERIFY can ask for, leaves the
  // head where it is only just after a filemark, or at end of data when no
  // filemark lies behind.
  lemma ZeroMarksStays(c: Cart)
    requires c.Ok()
    ensures Moved(c, ZeroMarksPlan(c.Objs(), c.pos)).pos == c.pos <==>
      (c.pos > 0 && c.Objs()[c.pos - 1].Filemark?) ||
      (c.AtEod() && forall i :: 0 <= i < c.pos ==> !c.Objs()[i].Filemark?)
  {
    BackWalkByMark(c.Objs(), c.pos, 0);
    NoMarkBehind(c.Objs(), c.pos);
  }

  lemma {:induction false} NoMarkBehind(objs: seq<Object>, pos: nat)
    requires pos <= |objs|
    ensures MarkBack(objs, pos).left > 0 <==> forall i :: 0 <= i < pos ==> !objs[i].Filemark?
    ensures forall i :: MarkBack(objs, pos).pos < i < pos ==> !objs[i].Filemark?
  {
    if pos > 0 && !objs[pos - 1].Filemark? {
      NoMarkBehind(objs, pos - 1);
    }
  }

  // Spacing there and back again over filemarks, as seen in the number of
  // filemarks behind the head.
  lemma MarkSpacingCounts(c: Cart, n: nat)
    requires c.Ok() && n >= 1
    ensures var r := SpaceMarksForw(c, n);
      MarksBefore(r.Objs(), r.pos) ==
        if MarksBefore(c.Objs(), c.pos) + n <= |Marks(c.Objs())| then MarksBefore(c.Objs(), c.pos) + n
        else |Marks(c.Objs())|
    ensures var r := SpaceMarksBack(c, n);
      MarksBefore(r.Objs(), r.pos) ==
        if n <= MarksBefore(c.Objs(), c.pos) then MarksBefore(c.Objs(), c.pos) - n else 0
  {
    ForwChangesCount(c.Objs(), c.pos, n);
    BackChangesCount(c.Objs(), c.pos, n);
  }

  // LOCATE takes the low 32 bits of its block number: it reaches the block
  // asked for, or reports the end of data, exactly when the number has no
  // more bits, or what is left of it is still past the end.
  lemma LocateReaches(d: Drive, c: Cart, partition: nat, number: nat)
    requires c.Ok() && partition < |c.tapes| && |c.tapes[partition]| < TWO_32
    ensures var cmd := Locate(partition, number); var r, end := Exec(d, c, cmd), |c.tapes[partition]|;
      (r.cur == partition && r.pos == Least(number, end) &&
       Reply(d, c, cmd).0 == SpaceEnded(if number > end then PastEndOfData else Good)) <==>
      (number < TWO_32 || number % TWO_32 > end)
  {
  }

  // LOCATE to block 2^32 goes to block 0 and is answered good.
  lemma LocateWraps(d: Drive, objs: seq<Object>, medium: MediumType)
    ensures var c, cmd := Cart([objs], 0, |objs|, true, medium), Locate(0, TWO_32);
      Exec(d, c, cmd).pos == 0 && Reply(d, c, cmd).0 == SpaceEnded(Good)
  {
  }

  // VERIFY over zero filemarks, from the start of a tape of two blocks and a
  // filemark between them, ends at end of data.
  lemma ZeroMarksMoves(a: Object, b: Object, medium: MediumType)
    requires a.Block? && b.Block?
    ensures var c := Cart([[a, Filemark, b]], 0, 0, true, medium);
      Moved(c, ZeroMarksPlan(c.Objs(), 0)).pos == 3
  {
  }
}
