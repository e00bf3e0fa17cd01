// The older tape format, which has no filemark map: headers are chained in
// the data file and filemarks are found by stepping along the chain.

module LinearTape {
  import opened Tape

  datatype HeaderType = BOT | DATA | FILEMARK | EOD | NOOP

  // The types of the headers in the file: beginning of tape, the objects, end
  // of data. Header k + 1 belongs to object k.
  function TypeAt(objs: seq<Object>, at: nat): HeaderType
    requires at <= |objs| + 1
  {
    if at == 0 then BOT
    else if at == |objs| + 1 then EOD
    else if objs[at - 1].Filemark? then FILEMARK
    else DATA
  }

  class LinearTape {
    const objs: seq<Object>
    // The header under the head: its place, and its type as held in memory.
    var at: nat
    var kind: HeaderType

    constructor (objs: seq<Object>)
      ensures this.objs == objs && Valid() && at == 1
    {
      this.objs := objs;
      at, kind := 1, TypeAt(objs, 1);
    }

    ghost predicate Valid()
      reads this
    {
      1 <= at <= |objs| + 1 && kind == TypeAt(objs, at)
    }

    // skip_to_next_header
    method SkipToNextHeader() returns (ok: bool)
      requires at <= |objs| + 1 && (kind == EOD <==> at == |objs| + 1)
      modifies this
      ensures ok == (old(at) <= |objs|)
      ensures ok ==> at == old(at) + 1 && kind == TypeAt(objs, at)
      ensures !ok ==> at == old(at) && kind == old(kind)
    {
      if kind == EOD {
        return false;
      }
      at := at + 1;
      kind := TypeAt(objs, at);
      return true;
    }

    // skip_to_prev_header: the beginning of tape is stepped off again.
    method SkipToPrevHeader() returns (ok: bool)
      requires 1 <= at <= |objs| + 1
      modifies this
      ensures Valid()
      ensures ok == (old(at) > 1) && at == if ok then old(at) - 1 else 1
    {
      at := at - 1;
      kind := TypeAt(objs, at);
      if kind == BOT {
        var _ := SkipToNextHeader();
        return false;
      }
      return true;
    }

    // skip_next_filemark
    method SkipNextFilemark() returns (ok: bool)
      requires Valid()
      modifies this
      ensures Valid()
      ensures Walk(at - 1, if ok then 0 else 1) == MarkForw(objs, old(at) - 1)
    {
      while kind != FILEMARK
        invariant Valid()
        invariant MarkForw(objs, old(at) - 1) == MarkForw(objs, at - 1)
        decreases |objs| + 1 - at
      {
        if kind == EOD {
          return false;
        }
        var _ := SkipToNextHeader();
      }
      ok := SkipToNextHeader();
    }

    // skip_prev_filemark: a filemark under the head is blotted out first, so
    // that the search does not end on it.
    method SkipPrevFilemark() returns (ok: bool)
      requires Valid()
      modifies this
      ensures Valid()
      ensures Walk(at - 1, if ok then 0 else 1) == MarkBack(objs, old(at) - 1)
    {
      if kind == FILEMARK {
        kind := NOOP;
      }
      ghost var start := at - 1;
      while kind != FILEMARK
        invariant 1 <= at <= start + 1 <= |objs| + 1
        invariant at == start + 1 ==> kind != FILEMARK
        invariant at <= start ==> kind == TypeAt(objs, at)
        invariant MarkBack(objs, start) == if kind == FILEMARK then Walk(at - 1, 0) else MarkBack(objs, at - 1)
        decreases at
      {
        ok := SkipToPrevHeader();
        if !ok {
          return;
        }
      }
      ok := true;
    }

    // position_filemarks
    method PositionFilemarks(count: int) returns (ok: bool)
      requires Valid()
      modifies this
      ensures Valid()
      ensures var w := if count < 0 then MarksBack(objs, old(at) - 1, -count) else MarksForw(objs, old(at) - 1, count);
        at - 1 == w.pos && ok == (w.left == 0)
    {
      var left := count;
      if count < 0 {
        while left < 0
          invariant left <= 0 && Valid()
          invariant MarksBack(objs, old(at) - 1, -count) == MarksBack(objs, at - 1, -left)
        {
          ok := SkipPrevFilemark();
          if !ok {
            return;
          }
          left := left + 1;
        }
      } else {
        while left > 0
          invariant left >= 0 && Valid()
          invariant MarksForw(objs, old(at) - 1, count) == MarksForw(objs, at - 1, left)
        {
          ok := SkipNextFilemark();
          if !ok {
            return;
          }
          left := left - 1;
        }
      }
      ok := true;
    }
  }
}
