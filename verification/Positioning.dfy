// Where SPACE goes and what it answers, in terms of the filemarks on the tape.

module Positioning {
  import opened Basics
  import opened Tape
  import opened CartModel
  import opened BlockIo
  import opened Commands
  import opened Spacing

  // m is the first filemark from a place on, or the last one before it.
  predicate FirstMark(objs: seq<Object>, pos: nat, m: nat) {
    pos <= m < |objs| && objs[m].Filemark? && forall i :: pos <= i < m ==> !objs[i].Filemark?
  }

  predicate LastMark(objs: seq<Object>, pos: nat, m: nat) {
    m < pos <= |objs| && objs[m].Filemark? && forall i :: m < i < pos ==> !objs[i].Filemark?
  }

  predicate NoMark(objs: seq<Object>, from: nat, to: nat) {
    from <= to <= |objs| && forall i :: from <= i < to ==> !objs[i].Filemark?
  }

  lemma {:induction false} ForwMeets(objs: seq<Object>, pos: nat, count: nat, m: nat)
    requires FirstMark(objs, pos, m)
    ensures BlocksForw(objs, pos, count) ==
      if m < pos + count then BlockWalk(m + 1, pos + count - m, AtMark) else BlockWalk(pos + count, 0, Arrived)
    decreases count
  {
    if count > 0 && pos < m {
      ForwMeets(objs, pos + 1, count - 1, m);
    }
  }

  lemma {:induction false} ForwRunsOut(objs: seq<Object>, pos: nat, count: nat)
    requires NoMark(objs, pos, |objs|)
    ensures BlocksForw(objs, pos, count) ==
      if pos + count <= |objs| then BlockWalk(pos + count, 0, Arrived)
      else BlockWalk(|objs|, pos + count - |objs|, AtEnd)
    decreases count
  {
    if count > 0 && pos < |objs| {
      ForwRunsOut(objs, pos + 1, count - 1);
    }
  }

  // Over n blocks forward, within 32 bits: to behind the first filemark on the
  // way, with a number that is one more than was asked for; over n objects when
  // there is none; or to end of data, with the number of blocks not passed.
  lemma BlocksForward(d: Drive, c: Cart, n: nat)
    requires c.Ok() && 0 < n && c.pos + n < TWO_32
    ensures var objs, r, a := c.tapes[c.cur], Exec(d, c, SpaceBlocks(n)), Reply(d, c, SpaceBlocks(n)).0;
      && r.tapes == c.tapes && r.cur == c.cur
      && (forall m :: c.pos <= m < c.pos + n && FirstMark(objs, c.pos, m) ==>
          r.pos == m + 1 && a == SpaceEnded(MarkSeen((n + 1) % TWO_32)))
      && (c.pos + n <= |objs| && NoMark(objs, c.pos, c.pos + n) ==> r.pos == c.pos + n && a == SpaceEnded(Good))
      && (c.pos + n > |objs| && NoMark(objs, c.pos, |objs|) ==>
          r.pos == |objs| && a == SpaceEnded(EndOfData(n - (|objs| - c.pos))))
  {
    var objs := c.tapes[c.cur];
    BlocksForwByMap(c, n);
    forall m | c.pos <= m < |objs| && FirstMark(objs, c.pos, m)
      ensures BlocksForw(objs, c.pos, n) ==
        if m < c.pos + n then BlockWalk(m + 1, c.pos + n - m, AtMark) else BlockWalk(c.pos + n, 0, Arrived)
    {
      ForwMeets(objs, c.pos, n, m);
    }
    if c.pos + n <= |objs| && NoMark(objs, c.pos, c.pos + n) {
      PassedOver(objs, c.pos, n);
    }
    if NoMark(objs, c.pos, |objs|) {
      ForwRunsOut(objs, c.pos, n);
    }
  }

  lemma {:induction false} PassedOver(objs: seq<Object>, pos: nat, n: nat)
    requires pos + n <= |objs| && NoMark(objs, pos, pos + n)
    ensures BlocksForw(objs, pos, n) == BlockWalk(pos + n, 0, Arrived)
    decreases n
  {
    if n > 0 {
      PassedOver(objs, pos + 1, n - 1);
    }
  }

  // Over n blocks back, no more than lie behind: onto the first filemark on the
  // way, with the number asked for, or over n objects when there is none.
  lemma BlocksBackward(d: Drive, c: Cart, n: nat)
    requires c.Ok() && 0 < n <= c.pos < TWO_32
    ensures var cmd := SpaceBlocks(-(n as int));
      var objs, r, a := c.tapes[c.cur], Exec(d, c, cmd), Reply(d, c, cmd).0;
      && r.tapes == c.tapes && r.cur == c.cur
      && (forall m :: c.pos - n <= m < c.pos && LastMark(objs, c.pos, m) ==>
          r.pos == m && a == SpaceEnded(MarkSeen(n)))
      && (NoMark(objs, c.pos - n, c.pos) ==> r.pos == c.pos - n && a == SpaceEnded(Good))
  {
    var objs := c.tapes[c.cur];
    WalkedBack(c, n);
    forall m | c.pos - n <= m < c.pos && LastMark(objs, c.pos, m)
      ensures BlocksBack(objs, c.pos, n).pos == m && BlocksBack(objs, c.pos, n).stop == AtMark
    {
      WalkBackMeets(objs, c.pos, n, m);
    }
    if NoMark(objs, c.pos - n, c.pos) {
      WalkBackPasses(objs, c.pos, n);
    }
  }

  lemma WalkedBack(c: Cart, n: nat)
    requires c.Ok() && 0 < n <= c.pos < TWO_32
    ensures var r, w := SpacedBlocks(c, -(n as int)), BlocksBack(c.tapes[c.cur], c.pos, n);
      && r.tapes == c.tapes && r.cur == c.cur && r.pos == w.pos
      && BlocksAnswer(c, -(n as int)) == if w.stop.AtMark? then MarkSeen(n) else Good
  {
    BackWithinTape(c, n);
  }

  lemma {:induction false} WalkBackMeets(objs: seq<Object>, pos: nat, n: nat, m: nat)
    requires LastMark(objs, pos, m) && 0 < n <= pos && pos - n <= m
    ensures BlocksBack(objs, pos, n).pos == m && BlocksBack(objs, pos, n).stop == AtMark
    decreases n
  {
    if m < pos - 1 {
      WalkBackMeets(objs, pos - 1, n - 1, m);
    }
  }

  lemma {:induction false} WalkBackPasses(objs: seq<Object>, pos: nat, n: nat)
    requires n <= pos <= |objs| && NoMark(objs, pos - n, pos)
    ensures BlocksBack(objs, pos, n) == BlockWalk(pos - n, 0, Arrived)
    decreases n
  {
    if n > 0 {
      WalkBackPasses(objs, pos - 1, n - 1);
    }
  }

  lemma {:induction false} ForwEnds(objs: seq<Object>, pos: nat)
    requires pos <= |objs|
    ensures var w := MarkForw(objs, pos);
      if w.left == 0 then 0 < w.pos && objs[w.pos - 1].Filemark? else w == Walk(|objs|, 1)
    decreases |objs| - pos
  {
    if pos < |objs| && !objs[pos].Filemark? {
      ForwEnds(objs, pos + 1);
    }
  }

  lemma {:induction false} ForwEndsAll(objs: seq<Object>, pos: nat, n: nat)
    requires pos <= |objs| && n > 0
    ensures var w := MarksForw(objs, pos, n);
      if w.left == 0 then 0 < w.pos && objs[w.pos - 1].Filemark? else w.pos == |objs|
    decreases n
  {
    ForwEnds(objs, pos);
    var s := MarkForw(objs, pos);
    if s.left == 0 && n > 1 {
      ForwEndsAll(objs, s.pos, n - 1);
    }
  }

  lemma {:induction false} BackEnds(objs: seq<Object>, pos: nat)
    requires pos <= |objs|
    ensures var w := MarkBack(objs, pos);
      if w.left == 0 then w.pos < pos && objs[w.pos].Filemark? else w == Walk(0, 1)
    decreases pos
  {
    if pos > 0 && !objs[pos - 1].Filemark? {
      BackEnds(objs, pos - 1);
    }
  }

  lemma {:induction false} BackEndsAll(objs: seq<Object>, pos: nat, n: nat)
    requires pos <= |objs| && n > 0
    ensures var w := MarksBack(objs, pos, n);
      if w.left == 0 then w.pos < pos && objs[w.pos].Filemark? else w.pos == 0
    decreases n
  {
    BackEnds(objs, pos);
    var s := MarkBack(objs, pos);
    if s.left == 0 && n > 1 {
      BackEndsAll(objs, s.pos, n - 1);
    }
  }

  // Over n filemarks forward: to behind the n-th from here, or to end of data
  // with the number that is missing.
  lemma MarksForward(d: Drive, c: Cart, n: nat)
    requires c.Ok() && 0 < n < TWO_63
    ensures var objs, r, a := c.tapes[c.cur], Exec(d, c, SpaceMarks(n)), Reply(d, c, SpaceMarks(n)).0;
      var behind, all := MarksBefore(objs, c.pos), |Marks(objs)|;
      && r.tapes == c.tapes && r.cur == c.cur
      && (behind + n <= all ==>
          && 0 < r.pos && objs[r.pos - 1].Filemark? && MarksBefore(objs, r.pos) == behind + n
          && a == SpaceEnded(Good))
      && (behind + n > all ==> r.pos == |objs| && a == SpaceEnded(EndOfData((behind + n - all) % TWO_32)))
  {
    ForwEndsAll(c.tapes[c.cur], c.pos, n);
    ForwChangesCount(c.tapes[c.cur], c.pos, n);
    MarksForwLookup(c.tapes[c.cur], c.pos, n);
  }

  // Over n filemarks back: onto the n-th behind, or to the beginning with the
  // number that is missing.
  lemma MarksBackward(d: Drive, c: Cart, n: nat)
    requires c.Ok() && 0 < n <= TWO_63
    ensures var cmd := SpaceMarks(-(n as int));
      var objs, r, a := c.tapes[c.cur], Exec(d, c, cmd), Reply(d, c, cmd).0;
      var behind := MarksBefore(objs, c.pos);
      && r.tapes == c.tapes && r.cur == c.cur
      && (n <= behind ==>
          && r.pos < c.pos && objs[r.pos].Filemark? && MarksBefore(objs, r.pos) == behind - n
          && a == SpaceEnded(Good))
      && (n > behind ==> r.pos == 0 && a == SpaceEnded(Beginning((n - behind) % TWO_32)))
  {
    BackEndsAll(c.tapes[c.cur], c.pos, n);
    BackChangesCount(c.tapes[c.cur], c.pos, n);
    MarksBackLookup(c.tapes[c.cur], c.pos, n);
  }

  // Over nothing.
  lemma SpaceOverNone(d: Drive, c: Cart)
    requires c.Ok()
    ensures Exec(d, c, SpaceBlocks(0)) == c == Exec(d, c, SpaceMarks(0))
    ensures Reply(d, c, SpaceBlocks(0)).0 == SpaceEnded(Good) == Reply(d, c, SpaceMarks(0)).0
  {
  }
}
