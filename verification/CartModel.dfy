// The cartridge an initiator sees: per partition a list of objects, one head
// position, and the flag that permits writing. Each function says what one
// entry point of the cartridge engine does to it.

module CartModel {
  import opened Basics
  import opened Tape

  datatype MediumType = DataMedium | WormMedium | CleanMedium

  // Block numbers are 32 bit; one block is refused past MAX_BLOCK.
  const MAX_BLOCK: nat := 0xffff_fff0

  datatype Status =
    | Good
    | NotReady
    | WriteError
    | TooManyBlocks
    | EndOfData(information: nat)     // blank check, with residual
    | PastEndOfData                   // blank check, no residual
    | MarkSeen(information: nat)
    | Beginning(information: nat)

  datatype Cart = Cart(tapes: seq<seq<Object>>, cur: nat, pos: nat, ok: bool, medium: MediumType) {

    predicate Ok() {
      cur < |tapes| && pos <= |tapes[cur]|
    }

    function Objs(): seq<Object>
      requires Ok()
    {
      tapes[cur]
    }

    predicate AtEod()
      requires Ok()
    {
      pos == |Objs()|
    }

    // Still a well-positioned head on the same cartridge.
    predicate Succeeds(c: Cart) {
      Ok() && medium == c.medium && |tapes| == |c.tapes|
    }

    function Put(objs: seq<Object>): Cart
      requires Ok()
    {
      this.(tapes := tapes[cur := objs])
    }
  }

  // A head that reaches the end of data may write there.
  function Seek(c: Cart, k: nat): (r: Cart)
    requires c.Ok()
    ensures r.Succeeds(c)
  {
    if k > |c.Objs()| then c else c.(pos := k, ok := k == |c.Objs()| || c.ok)
  }

  // A WORM tape holding nothing but one filemark counts as blank.
  predicate Blank(objs: seq<Object>) {
    objs == [] || objs == [Filemark]
  }

  function Rewound(c: Cart): (r: Cart)
    requires c.Ok()
    ensures r.Succeeds(c)
  {
    Seek(c, 0).(ok :=
      match c.medium
      case CleanMedium => false
      case WormMedium => Blank(c.Objs())
      case DataMedium => true)
  }

  function AtEndOfData(c: Cart): (r: Cart)
    requires c.Ok()
    ensures r.Succeeds(c)
  {
    Seek(c, |c.Objs()|)
  }

  function Guarded(c: Cart): Cart {
    if c.medium.WormMedium? then c.(ok := false) else c
  }

  function ToBlock(c: Cart, k: nat): (r: Cart)
    requires c.Ok()
    ensures r.Succeeds(c)
  {
    if k > |c.Objs()| then AtEndOfData(Guarded(c))
    else if k == 0 then Rewound(Guarded(c))
    else Seek(Guarded(c), k)
  }

  function SpaceBlocksForw(c: Cart, count: nat): (r: Cart)
    requires c.Ok()
    ensures r.Succeeds(c)
  {
    var w := BlocksForw(c.Objs(), c.pos, count);
    if w.stop.Arrived? then ToBlock(c, w.pos) else Seek(Guarded(c), w.pos)
  }

  function SpaceBlocksBack(c: Cart, count: nat): (r: Cart)
    requires c.Ok()
    ensures r.Succeeds(c)
  {
    var w := BlocksBack(c.Objs(), c.pos, count);
    if w.stop.Arrived? then ToBlock(c, w.pos) else Seek(Guarded(c), w.pos)
  }

  function SpaceMarksForw(c: Cart, count: nat): (r: Cart)
    requires c.Ok()
    ensures r.Succeeds(c)
  {
    var w := MarksForw(c.Objs(), c.pos, count);
    if w.left == 0 then ToBlock(c, w.pos) else Seek(Guarded(c), w.pos)
  }

  function SpaceMarksBack(c: Cart, count: nat): (r: Cart)
    requires c.Ok()
    ensures r.Succeeds(c)
  {
    var w := MarksBack(c.Objs(), c.pos, count);
    if w.left == 0 then ToBlock(c, w.pos) else Seek(Guarded(c), w.pos)
  }

  // What the initiator is told. When spacing over blocks meets a filemark the
  // information field is taken from the target, not from the blocks passed.
  function BlocksForwStatus(c: Cart, count: nat): Status
    requires c.Ok()
  {
    var w := BlocksForw(c.Objs(), c.pos, count);
    match w.stop
    case Arrived => Good
    case AtMark => MarkSeen((count + 1) % TWO_32)
    case AtEnd => EndOfData(w.left % TWO_32)
  }

  function MarksForwStatus(c: Cart, count: nat): Status
    requires c.Ok()
  {
    var w := MarksForw(c.Objs(), c.pos, count);
    if w.left == 0 then Good else EndOfData(w.left % TWO_32)
  }

  function MarksBackStatus(c: Cart, count: nat): Status
    requires c.Ok()
  {
    var w := MarksBack(c.Objs(), c.pos, count);
    if w.left == 0 then Good else Beginning(w.left % TWO_32)
  }

  // A spacing command ends by going to a block, or by placing the head at a
  // header with something to report.
  datatype Plan = GoTo(number: nat) | PlaceAt(number: nat, status: Status)

  function Moved(c: Cart, plan: Plan): (r: Cart)
    requires c.Ok()
    ensures r.Succeeds(c)
  {
    match plan
    case GoTo(k) => ToBlock(c, k)
    case PlaceAt(k, _) => Seek(Guarded(c), k)
  }

  function MovedStatus(c: Cart, plan: Plan): Status
    requires c.Ok()
  {
    match plan
    case GoTo(k) => if k > |c.Objs()| then PastEndOfData else Good
    case PlaceAt(_, s) => s
  }

  // Spacing over blocks computes its target in 32 bits.
  function ForwTarget(pos: nat, count: nat): nat {
    (pos + count) % TWO_32
  }

  function BackTarget(pos: nat, count: nat): nat {
    (pos - count) % TWO_32
  }

  // The plans read off the filemark map.
  function BlocksForwPlan(objs: seq<Object>, pos: nat, count: nat): Plan
    requires pos <= |objs|
  {
    var m, i, target := Marks(objs), MarksBefore(objs, pos), ForwTarget(pos, count);
    if i < |m| && m[i] < target then PlaceAt(m[i] + 1, MarkSeen((target - pos + 1) % TWO_32))
    else if i >= |m| && target > |objs| then PlaceAt(|objs|, EndOfData(target - |objs|))
    else GoTo(target)
  }

  function MarksForwPlan(objs: seq<Object>, pos: nat, count: nat): Plan
    requires pos <= |objs| && count > 0
  {
    var m, i := Marks(objs), MarksBefore(objs, pos);
    if i + count - 1 < |m| then GoTo(m[i + count - 1] + 1)
    else PlaceAt(|objs|, EndOfData((i + count - |m|) % TWO_32))
  }

  function MarksBackPlan(objs: seq<Object>, pos: nat, count: nat): Plan
    requires pos <= |objs| && count > 0
  {
    var m, i := Marks(objs), MarksBefore(objs, pos);
    MarksPrefix(objs, pos);
    if count <= i then GoTo(m[i - count]) else PlaceAt(0, Beginning((count - i) % TWO_32))
  }

  // The index computed for the count-th filemark, in 64 bits: counting zero
  // filemarks from the beginning of the map wraps to a huge index.
  function MarkIndex(i: nat, count: nat): (k: nat)
    requires i <= TWO_32 && count < TWO_63
    ensures k == if i + count == 0 then TWO_64 - 1 else i + count - 1
  {
    (i + count - 1) % TWO_64
  }

  // Where the target does not wrap, spacing forward is the walk.
  lemma BlocksForwByMap(c: Cart, count: nat)
    requires c.Ok() && c.pos + count < TWO_32
    ensures var plan := BlocksForwPlan(c.Objs(), c.pos, count);
      SpaceBlocksForw(c, count) == Moved(c, plan) && BlocksForwStatus(c, count) == MovedStatus(c, plan)
  {
    BlocksForwLookup(c.Objs(), c.pos, count);
    MarksSorted(c.Objs());
  }

  lemma MarksForwByMap(c: Cart, count: nat)
    requires c.Ok() && count > 0
    ensures var plan := MarksForwPlan(c.Objs(), c.pos, count);
      SpaceMarksForw(c, count) == Moved(c, plan) && MarksForwStatus(c, count) == MovedStatus(c, plan)
  {
    MarksForwLookup(c.Objs(), c.pos, count);
    MarksSorted(c.Objs());
  }

  lemma MarksBackByMap(c: Cart, count: nat)
    requires c.Ok() && count > 0
    ensures var plan := MarksBackPlan(c.Objs(), c.pos, count);
      SpaceMarksBack(c, count) == Moved(c, plan) && MarksBackStatus(c, count) == MovedStatus(c, plan)
  {
    MarksBackLookup(c.Objs(), c.pos, count);
    MarksSorted(c.Objs());
  }

  // Writing replaces everything from the head on.
  function Written(c: Cart, more: seq<Object>): (r: Cart)
    requires c.Ok()
    ensures r.Succeeds(c)
  {
    c.Put(c.Objs()[..c.pos] + more).(pos := c.pos + |more|, ok := true)
  }

  // Two writes in a row are one.
  lemma WrittenTwice(c: Cart, o: Object, more: seq<Object>)
    requires c.Ok()
    ensures Written(Written(c, [o]), more) == Written(c, [o] + more)
  {
    var base := c.Objs()[..c.pos];
    var next := Written(c, [o]);
    assert next.Objs() == base + [o] && next.Objs()[..next.pos] == base + [o];
    assert base + [o] + more == base + ([o] + more);
    UpdateTwice(c.tapes, c.cur, base + [o], base + [o] + more);
  }

  // Cutting the tape at the beginning leaves nothing.
  lemma CutAtStart(c: Cart, d: Cart)
    requires c.Ok() && c.pos == 0
    requires d.tapes == c.Put(c.Objs()[..c.pos]).tapes && d.cur == c.cur && d.medium == c.medium
    ensures d.cur < |d.tapes| && d.tapes[d.cur] == []
    ensures d.(pos := 0, ok := true) == Written(c, [])
  {
    assert c.Objs()[..c.pos] == [] == c.Objs()[..c.pos] + [];
  }

  // Cutting the tape at the head and then appending is writing.
  lemma CutThenAppend(c: Cart, d: Cart, more: seq<Object>)
    requires c.Ok() && d.tapes == c.Put(c.Objs()[..c.pos]).tapes && d.cur == c.cur && d.medium == c.medium
    ensures d.cur < |d.tapes| &&
      Cart(d.tapes[d.cur := d.tapes[d.cur] + more], c.cur, c.pos + |more|, true, c.medium) == Written(c, more)
  {
  }

  function Repeat<T>(o: T, n: nat): (r: seq<T>)
    ensures |r| == n
    ensures forall i :: 0 <= i < n ==> r[i] == o
  {
    seq(n, _ => o)
  }

  lemma UpdateTwice<T>(s: seq<T>, i: nat, a: T, b: T)
    requires i < |s|
    ensures s[i := a][i := b] == s[i := b]
  {
  }

  lemma OneMore(base: seq<Object>, n: nat)
    ensures base + Repeat(Filemark, n + 1) == base + Repeat(Filemark, n) + [Filemark]
    ensures base + Repeat(Filemark, 0) == base
  {
  }

  // Whether the data of a block reached the medium, or only some of its bytes.
  datatype Fault = Sound | Short(bytes: nat)

  function BlockWritten(c: Cart, o: Object, fault: Fault): (r: Cart)
    requires c.Ok()
    ensures r.Succeeds(c)
  {
    if c.AtEod() && c.pos > MAX_BLOCK then c
    else if fault.Short? then Written(c, []) else Written(c, [o])
  }

  function BlocksBackPlan(objs: seq<Object>, pos: nat, count: nat): Plan
    requires pos <= |objs|
  {
    var target, w := BackTarget(pos, count), MarkBack(objs, pos);
    if w.left == 0 && w.pos >= target then PlaceAt(w.pos, MarkSeen((pos - target) % TWO_32)) else GoTo(target)
  }

  // Where spacing over blocks ends, and what it reports.
  function BlocksForwLanding(c: Cart, count: nat): (r: Cart)
    requires c.Ok()
    ensures r.Succeeds(c)
  {
    Moved(c, BlocksForwPlan(c.Objs(), c.pos, count))
  }

  function BlocksForwAnswer(c: Cart, count: nat): Status
    requires c.Ok()
  {
    MovedStatus(c, BlocksForwPlan(c.Objs(), c.pos, count))
  }

  function BlocksBackLanding(c: Cart, count: nat): (r: Cart)
    requires c.Ok()
    ensures r.Succeeds(c)
  {
    Moved(c, BlocksBackPlan(c.Objs(), c.pos, count))
  }

  function BlocksBackAnswer(c: Cart, count: nat): Status
    requires c.Ok()
  {
    MovedStatus(c, BlocksBackPlan(c.Objs(), c.pos, count))
  }

  // Spacing forward over zero filemarks goes to just after the last filemark
  // passed, or to end of data when none was.
  function ZeroMarksPlan(objs: seq<Object>, pos: nat): Plan
    requires pos <= |objs|
  {
    var w := MarkBack(objs, pos);
    if w.left == 0 then GoTo(w.pos + 1) else PlaceAt(|objs|, EndOfData(-|Marks(objs)| % TWO_32))
  }

  function Changed(c: Cart, partition: nat): (r: Cart)
    requires partition < |c.tapes|
    ensures r.Succeeds(c)
  {
    Seek(c.(cur := partition, pos := 0), 0)
  }

  function Formatted(c: Cart, count: nat): Cart
    requires count > 0
  {
    Cart(Repeat([], count), 0, 0, true, c.medium)
  }
}
