// What a tape partition holds, independent of the files that hold it: a list
// of data blocks and filemarks, the bytes they occupy, the places of the
// filemarks, and the one-object-at-a-time walks over them.

module Tape {
  import opened Files

  datatype Packing = Raw | Lzo | Zlib

  // A data block carries its on-disk bytes and what its header says of the
  // uncompressed bytes: their number and their checksum.
  datatype Object =
    | Filemark
    | Block(stored: seq<byte>, size: nat, packing: Packing, crc: nat)

  function Stored(o: Object): seq<byte> {
    match o
    case Filemark => []
    case Block(stored, _, _, _) => stored
  }

  // The data file: the stored bytes of the objects, one after the other.
  function Bytes(objs: seq<Object>): seq<byte> {
    if objs == [] then [] else Bytes(objs[..|objs| - 1]) + Stored(objs[|objs| - 1])
  }

  // The places of the filemarks, in order.
  function Marks(objs: seq<Object>): seq<nat> {
    if objs == [] then []
    else
      var k := |objs| - 1;
      if objs[k].Filemark? then Marks(objs[..k]) + [k] else Marks(objs[..k])
  }

  predicate StrictlyIncreasing(s: seq<nat>) {
    forall i, j :: 0 <= i < j < |s| ==> s[i] < s[j]
  }

  lemma BytesAppend(objs: seq<Object>, o: Object)
    ensures Bytes(objs + [o]) == Bytes(objs) + Stored(o)
  {
    assert (objs + [o])[..|objs|] == objs;
  }

  lemma MarksAppend(objs: seq<Object>, o: Object)
    ensures Marks(objs + [o]) == if o.Filemark? then Marks(objs) + [|objs|] else Marks(objs)
  {
    assert (objs + [o])[..|objs|] == objs;
  }

  // Cutting the tape cuts the data file at the offset of the first lost object,
  // and what lies between two consecutive offsets is exactly one object.
  lemma {:induction false} BytesPrefix(objs: seq<Object>, k: nat)
    requires k <= |objs|
    ensures Bytes(objs[..k]) <= Bytes(objs)
    ensures k < |objs| ==>
      Bytes(objs[..k + 1]) == Bytes(objs[..k]) + Stored(objs[k]) <= Bytes(objs)
  {
    if k == |objs| {
      assert objs[..k] == objs;
    } else {
      var n := |objs| - 1;
      assert objs[..k + 1][..k] == objs[..k];
      if k == n {
        assert objs[..k + 1] == objs;
      } else {
        assert objs[..n][..k] == objs[..k];
        assert objs[..n][..k + 1] == objs[..k + 1];
        BytesPrefix(objs[..n], k);
      }
    }
  }

  // Reading at an object's offset yields the object's bytes.
  lemma BytesAt(objs: seq<Object>, k: nat, n: nat)
    requires k < |objs| && n <= |Stored(objs[k])|
    ensures var at := |Bytes(objs[..k])|;
      at + n <= |Bytes(objs)| && Bytes(objs)[at..at + n] == Stored(objs[k])[..n]
  {
    BytesPrefix(objs, k);
    var head, block := Bytes(objs[..k]), Stored(objs[k]);
    assert (head + block)[|head|..|head| + n] == block[..n];
    assert Bytes(objs)[..|head| + |block|] == head + block;
    assert Bytes(objs)[|head|..|head| + n] == Bytes(objs)[..|head| + |block|][|head|..|head| + n];
  }

  // The filemark map lists filemarks only, in increasing order ...
  lemma {:induction false} MarksSorted(objs: seq<Object>)
    ensures StrictlyIncreasing(Marks(objs))
    ensures forall i :: 0 <= i < |Marks(objs)| ==> Marks(objs)[i] < |objs| && objs[Marks(objs)[i]].Filemark?
  {
    if objs != [] {
      MarksSorted(objs[..|objs| - 1]);
    }
  }

  lemma {:induction false} MarksFew(objs: seq<Object>)
    ensures |Marks(objs)| <= |objs|
  {
    if objs != [] {
      MarksFew(objs[..|objs| - 1]);
    }
  }

  // ... and every one of them.
  lemma {:induction false} MarksComplete(objs: seq<Object>, k: nat)
    requires k < |objs|
    ensures objs[k].Filemark? <==> k in Marks(objs)
  {
    var n := |objs| - 1;
    MarksSorted(objs);
    if k < n {
      assert objs[..n][k] == objs[k];
      MarksComplete(objs[..n], k);
    } else {
      MarksSorted(objs[..n]);
    }
  }

  // Cutting the tape at k keeps exactly the entries of the map below k.
  lemma {:induction false} MarksPrefix(objs: seq<Object>, k: nat)
    requires k <= |objs|
    ensures Marks(objs[..k]) <= Marks(objs)
    ensures forall i :: 0 <= i < |Marks(objs[..k])| ==> Marks(objs)[i] < k
    ensures forall i :: |Marks(objs[..k])| <= i < |Marks(objs)| ==> Marks(objs)[i] >= k
  {
    MarksSorted(objs);
    if k == |objs| {
      assert objs[..k] == objs;
    } else {
      var n := |objs| - 1;
      assert objs[..n][..k] == objs[..k];
      MarksPrefix(objs[..n], k);
    }
  }

  // The map entry that a scan "first entry >= k" stops at.
  function MarksBefore(objs: seq<Object>, k: nat): nat
    requires k <= |objs|
  {
    |Marks(objs[..k])|
  }

  lemma FirstMarkAtOrAfter(objs: seq<Object>, k: nat, i: nat)
    requires k <= |objs|
    requires i <= |Marks(objs)|
    requires forall j :: 0 <= j < i ==> Marks(objs)[j] < k
    requires i < |Marks(objs)| ==> Marks(objs)[i] >= k
    ensures i == MarksBefore(objs, k)
  {
    MarksPrefix(objs, k);
    var m, p := Marks(objs), MarksBefore(objs, k);
    assert p < |m| ==> m[p] >= k;
  }

  // ------------------------------------------------------------------
  // Reference walks, one object at a time.

  // Where a walk ends, and how many of the requested things it did not pass.
  datatype Walk = Walk(pos: nat, left: nat)

  // The next filemark in the direction of the end: the position after it.
  function MarkForw(objs: seq<Object>, pos: nat): (r: Walk)
    requires pos <= |objs|
    ensures pos <= r.pos <= |objs|
    decreases |objs| - pos
  {
    if pos == |objs| then Walk(pos, 1)
    else if objs[pos].Filemark? then Walk(pos + 1, 0)
    else MarkForw(objs, pos + 1)
  }

  // The next filemark in the direction of the beginning: its own position.
  function MarkBack(objs: seq<Object>, pos: nat): (r: Walk)
    requires pos <= |objs|
    ensures r.pos <= pos
  {
    if pos == 0 then Walk(0, 1)
    else if objs[pos - 1].Filemark? then Walk(pos - 1, 0)
    else MarkBack(objs, pos - 1)
  }

  function MarksForw(objs: seq<Object>, pos: nat, count: nat): (r: Walk)
    requires pos <= |objs|
    ensures pos <= r.pos <= |objs|
    decreases count
  {
    if count == 0 then Walk(pos, 0)
    else
      var s := MarkForw(objs, pos);
      if s.left > 0 then Walk(s.pos, count) else MarksForw(objs, s.pos, count - 1)
  }

  function MarksBack(objs: seq<Object>, pos: nat, count: nat): (r: Walk)
    requires pos <= |objs|
    ensures r.pos <= pos
    decreases count
  {
    if count == 0 then Walk(pos, 0)
    else
      var s := MarkBack(objs, pos);
      if s.left > 0 then Walk(s.pos, count) else MarksBack(objs, s.pos, count - 1)
  }

  // Why a walk over blocks ended.
  datatype Stop = Arrived | AtMark | AtEnd

  datatype BlockWalk = BlockWalk(pos: nat, left: nat, stop: Stop)

  function BlocksForw(objs: seq<Object>, pos: nat, count: nat): (r: BlockWalk)
    requires pos <= |objs|
    ensures pos <= r.pos <= |objs|
    decreases count
  {
    if count == 0 then BlockWalk(pos, 0, Arrived)
    else if pos == |objs| then BlockWalk(pos, count, AtEnd)
    else if objs[pos].Filemark? then BlockWalk(pos + 1, count, AtMark)
    else BlocksForw(objs, pos + 1, count - 1)
  }

  function BlocksBack(objs: seq<Object>, pos: nat, count: nat): (r: BlockWalk)
    requires pos <= |objs|
    ensures r.pos <= pos
    decreases count
  {
    if count == 0 then BlockWalk(pos, 0, Arrived)
    else if pos == 0 then BlockWalk(0, count, AtEnd)
    else if objs[pos - 1].Filemark? then BlockWalk(pos - 1, count, AtMark)
    else BlocksBack(objs, pos - 1, count - 1)
  }

  // ------------------------------------------------------------------
  // The walks end where a look into the filemark map says.

  // No filemark in a stretch: k is between pos and the first mark at or after it.
  lemma {:induction false} MarkForwLookup(objs: seq<Object>, pos: nat)
    requires pos <= |objs|
    ensures var i := MarksBefore(objs, pos); var m := Marks(objs);
      MarkForw(objs, pos) ==
        if i < |m| then Walk(m[i] + 1, 0) else Walk(|objs|, 1)
    decreases |objs| - pos
  {
    MarksPrefix(objs, pos);
    MarksSorted(objs);
    if pos < |objs| {
      assert objs[..pos + 1] == objs[..pos] + [objs[pos]];
      MarksAppend(objs[..pos], objs[pos]);
      if objs[pos].Filemark? {
        MarksComplete(objs, pos);
      } else {
        MarkForwLookup(objs, pos + 1);
      }
    } else {
      assert objs[..pos] == objs;
    }
  }

  lemma {:induction false} MarkBackLookup(objs: seq<Object>, pos: nat)
    requires pos <= |objs|
    ensures var i := MarksBefore(objs, pos); var m := Marks(objs);
      i <= |m| &&
      MarkBack(objs, pos) == if i > 0 then Walk(m[i - 1], 0) else Walk(0, 1)
  {
    MarksPrefix(objs, pos);
    if pos > 0 {
      assert objs[..pos] == objs[..pos - 1] + [objs[pos - 1]];
      MarksAppend(objs[..pos - 1], objs[pos - 1]);
      MarksPrefix(objs, pos - 1);
      MarkBackLookup(objs, pos - 1);
    }
  }

  // After the i-th filemark there are i + 1 filemarks behind; on it, i.
  lemma MarksBeforeAtMark(objs: seq<Object>, i: nat)
    requires i < |Marks(objs)|
    ensures Marks(objs)[i] < |objs|
    ensures MarksBefore(objs, Marks(objs)[i]) == i
    ensures MarksBefore(objs, Marks(objs)[i] + 1) == i + 1
  {
    MarksSorted(objs);
    var k := Marks(objs)[i];
    FirstMarkAtOrAfter(objs, k, i);
    FirstMarkAtOrAfter(objs, k + 1, i + 1);
  }

  // Spacing count filemarks by one look into the map is the walk repeated.
  lemma {:induction false} MarksForwLookup(objs: seq<Object>, pos: nat, count: nat)
    requires pos <= |objs| && count >= 1
    ensures var i := MarksBefore(objs, pos); var m := Marks(objs);
      i <= |m| &&
      MarksForw(objs, pos, count) ==
        if i + count - 1 < |m| then Walk(m[i + count - 1] + 1, 0)
        else Walk(|objs|, i + count - |m|)
    decreases count
  {
    MarksPrefix(objs, pos);
    MarkForwLookup(objs, pos);
    var i := MarksBefore(objs, pos);
    if i < |Marks(objs)| {
      MarksBeforeAtMark(objs, i);
      if count > 1 {
        MarksForwLookup(objs, Marks(objs)[i] + 1, count - 1);
      } else {
        assert MarksForw(objs, Marks(objs)[i] + 1, 0).left == 0;
      }
    }
  }

  lemma {:induction false} MarksBackLookup(objs: seq<Object>, pos: nat, count: nat)
    requires pos <= |objs| && count >= 1
    ensures var i := MarksBefore(objs, pos); var m := Marks(objs);
      i <= |m| &&
      MarksBack(objs, pos, count) ==
        if count <= i then Walk(m[i - count], 0) else Walk(0, count - i)
    decreases count
  {
    MarksPrefix(objs, pos);
    MarkBackLookup(objs, pos);
    var i := MarksBefore(objs, pos);
    if i > 0 {
      MarksBeforeAtMark(objs, i - 1);
      if count > 1 {
        MarksBackLookup(objs, Marks(objs)[i - 1], count - 1);
      } else {
        assert MarksBack(objs, Marks(objs)[i - 1], 0).left == 0;
      }
    }
  }

  // Spacing over blocks by one look into the map is the walk by single steps.
  lemma {:induction false} BlocksForwLookup(objs: seq<Object>, pos: nat, count: nat)
    requires pos <= |objs|
    ensures var i := MarksBefore(objs, pos); var m := Marks(objs); var target := pos + count;
      BlocksForw(objs, pos, count) ==
        if i < |m| then
          if m[i] >= target then BlockWalk(target, 0, Arrived)
          else BlockWalk(m[i] + 1, target - m[i], AtMark)
        else if target > |objs| then BlockWalk(|objs|, target - |objs|, AtEnd)
        else BlockWalk(target, 0, Arrived)
    decreases count
  {
    MarksPrefix(objs, pos);
    MarksSorted(objs);
    if pos < |objs| {
      assert objs[..pos + 1] == objs[..pos] + [objs[pos]];
      MarksAppend(objs[..pos], objs[pos]);
      if objs[pos].Filemark? {
        MarksComplete(objs, pos);
      } else if count > 0 {
        BlocksForwLookup(objs, pos + 1, count - 1);
      }
    } else {
      assert objs[..pos] == objs;
    }
  }

  lemma {:induction false} BlocksBackLookup(objs: seq<Object>, pos: nat, count: nat)
    requires pos <= |objs|
    ensures var i := MarksBefore(objs, pos); var m := Marks(objs);
      i <= |m| && (i > 0 ==> m[i - 1] < pos) &&
      BlocksBack(objs, pos, count) ==
        if i > 0 && m[i - 1] >= pos - count then
          BlockWalk(m[i - 1], if count == 0 then 0 else count - (pos - 1 - m[i - 1]), AtMark)
        else if count > pos then BlockWalk(0, count - pos, AtEnd)
        else BlockWalk(pos - count, 0, Arrived)
    decreases count
  {
    MarksPrefix(objs, pos);
    if pos > 0 {
      assert objs[..pos] == objs[..pos - 1] + [objs[pos - 1]];
      MarksAppend(objs[..pos - 1], objs[pos - 1]);
      MarksPrefix(objs, pos - 1);
      if !objs[pos - 1].Filemark? && count > 0 {
        BlocksBackLookup(objs, pos - 1, count - 1);
      }
    }
  }

  // ------------------------------------------------------------------
  // Counting filemarks.

  // A space of n filemarks that does not run out changes the number of
  // filemarks behind the head by exactly n, in its direction.
  lemma ForwChangesCount(objs: seq<Object>, pos: nat, n: nat)
    requires pos <= |objs| && n >= 1
    ensures var w := MarksForw(objs, pos, n);
      if MarksBefore(objs, pos) + n <= |Marks(objs)|
      then w.left == 0 && MarksBefore(objs, w.pos) == MarksBefore(objs, pos) + n
      else w.left > 0 && MarksBefore(objs, w.pos) == |Marks(objs)|
  {
    MarksForwLookup(objs, pos, n);
    var i := MarksBefore(objs, pos);
    if i + n <= |Marks(objs)| {
      MarksBeforeAtMark(objs, i + n - 1);
    } else {
      assert objs[..|objs|] == objs;
    }
  }

  lemma BackChangesCount(objs: seq<Object>, pos: nat, n: nat)
    requires pos <= |objs| && n >= 1
    ensures var w := MarksBack(objs, pos, n);
      if n <= MarksBefore(objs, pos)
      then w.left == 0 && MarksBefore(objs, w.pos) == MarksBefore(objs, pos) - n
      else w.left > 0 && MarksBefore(objs, w.pos) == 0
  {
    MarksBackLookup(objs, pos, n);
    var i := MarksBefore(objs, pos);
    if n <= i {
      MarksBeforeAtMark(objs, i - n);
    }
  }

  // Forward over n filemarks and back over n returns to a filemark one started on.
  lemma ThereAndBack(objs: seq<Object>, pos: nat, n: nat)
    requires pos < |objs| && objs[pos].Filemark? && n >= 1
    requires MarksForw(objs, pos, n).left == 0
    ensures MarksBack(objs, MarksForw(objs, pos, n).pos, n) == Walk(pos, 0)
  {
    ForwChangesCount(objs, pos, n);
    MarksComplete(objs, pos);
    var i :| 0 <= i < |Marks(objs)| && Marks(objs)[i] == pos;
    MarksBeforeAtMark(objs, i);
    MarksBackLookup(objs, MarksForw(objs, pos, n).pos, n);
  }
}
