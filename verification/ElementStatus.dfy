// READ ELEMENT STATUS (section 6.12.2 of SMC-3): the report the library
// builds announces exactly what it contains.

module ElementStatus {
  import opened Basics
  import opened Files
  import opened Library

  const VOLTAG_LEN: nat := 36

  // A cartridge as the report knows it.
  datatype Label = Label(barcode: seq<byte>, cartType: nat, lastLocation: nat, noBarcode: bool)

  datatype DriveInfo = DriveInfo(scsiId: byte, vendor: seq<byte>, product: seq<byte>, serial: seq<byte>)

  // What the report says of an element.
  datatype Element = Element(
    location: nat, kind: ElementType, status: byte, ascAscq: nat, lastLocation: nat,
    media: Option<Label>, drive: DriveInfo)

  // The library's manner of reporting.
  datatype Manner = Manner(
    layout: Layout, serialOnly: bool, alwaysDvcid: bool, dvcidLen: nat, capClosed: bool)

  // The command: kind Nothing asks for elements of any type.
  datatype Query = Query(kind: ElementType, start: nat, number: nat, allocation: nat, voltag: bool, dvcid: bool)

  function Code(k: ElementType): byte {
    match k
    case Nothing => 0
    case MediumTransport => 1
    case StorageElement => 2
    case MapElement => 3
    case DataTransfer => 4
  }

  function Be16(x: nat): (r: seq<byte>)
    ensures |r| == 2
  {
    [x / 256 % 256, x % 256]
  }

  function Be24(x: nat): (r: seq<byte>)
    ensures |r| == 3
  {
    [x / 65536 % 256, x / 256 % 256, x % 256]
  }

  // The Full and Access bits of a status byte.
  predicate IsFull(status: byte) {
    status % 2 == 1
  }

  function WithAccess(status: byte, on: bool): byte {
    var has := status / 8 % 2 == 1;
    if on && !has then status + 8 else if !on && has then status - 8 else status
  }

  // blank_fill
  function Blanks(src: seq<byte>, len: nat): (r: seq<byte>)
    ensures |r| == len
  {
    seq(len, i requires 0 <= i < len => if i < |src| then src[i] else 0x20)
  }

  predicate WantsDvcid(m: Manner, q: Query) {
    m.alwaysDvcid || q.dvcid
  }

  // sizeof_element
  function SizeOfElement(m: Manner, q: Query, kind: ElementType): nat {
    16 + (if q.voltag then VOLTAG_LEN else 0) + (if WantsDvcid(m, q) && kind.DataTransfer? then m.dvcidLen else 0)
  }

  // The identifier of a drive: its serial number alone, or vendor, product
  // and serial number in fields of fixed width.
  function Identifier(m: Manner, d: DriveInfo): seq<byte> {
    if m.serialOnly then Blanks(d.serial, m.dvcidLen)
    else Blanks(d.vendor, 8) + Blanks(d.product, 16) + Blanks(d.serial, 10)
  }

  function FixedPart(m: Manner, e: Element): (r: seq<byte>)
    ensures |r| == 12
  {
    Be16(e.location)
    + [if e.kind.MapElement? then WithAccess(e.status, m.capClosed) else e.status,
       0,
       e.ascAscq / 256 % 256, e.ascAscq % 256,
       0,
       if e.kind.DataTransfer? then e.drive.scsiId else 0,
       0,
       if e.media.None? then 0 else (if e.media.value.lastLocation > 0 then 0x80 else 0) + e.media.value.cartType % 16]
    + Be16(e.lastLocation)
  }

  function VolumeTag(q: Query, e: Element): (r: seq<byte>)
    requires IsFull(e.status) ==> e.media.Some?
    ensures |r| == if q.voltag then VOLTAG_LEN else 0
  {
    if !q.voltag then []
    else if IsFull(e.status) && !e.media.value.noBarcode then Blanks(e.media.value.barcode, VOLTAG_LEN)
    else Zeros(VOLTAG_LEN)
  }

  function IdentifierPart(m: Manner, q: Query, e: Element): (r: seq<byte>)
    ensures |r| == 4 + if WantsDvcid(m, q) && e.kind.DataTransfer? then (if m.serialOnly then m.dvcidLen else 34) else 0
  {
    if WantsDvcid(m, q) && e.kind.DataTransfer?
    then [2, if m.serialOnly then 0 else 1, 0, m.dvcidLen % 256] + Identifier(m, e.drive)
    else [0, 0, 0, 0]
  }

  // fill_ed
  function FillDescriptor(m: Manner, q: Query, e: Element): seq<byte>
    requires IsFull(e.status) ==> e.media.Some?
  {
    FixedPart(m, e) + VolumeTag(q, e) + IdentifierPart(m, q, e)
  }

  // A descriptor has the announced size exactly when the identifier that is
  // written has the length that is announced.
  lemma DescriptorSize(m: Manner, q: Query, e: Element)
    requires IsFull(e.status) ==> e.media.Some?
    ensures |FillDescriptor(m, q, e)| == SizeOfElement(m, q, e.kind) <==>
      !(WantsDvcid(m, q) && e.kind.DataTransfer?) || m.serialOnly || m.dvcidLen == 34
  {
  }

  // Manners in which every descriptor has the announced size.
  predicate Tidy(m: Manner) {
    m.serialOnly || m.dvcidLen == 34
  }

  predicate Sound(es: seq<Element>) {
    forall i :: 0 <= i < |es| ==>
      es[i].location < 0x1_0000 && (IsFull(es[i].status) ==> es[i].media.Some?) && !es[i].kind.Nothing?
  }

  // ---------------------------------------------------- choosing elements

  predicate Matches(e: Element, kind: ElementType, start: nat) {
    (kind.Nothing? || e.kind == kind) && e.location >= start
  }

  function Matching(es: seq<Element>, kind: ElementType, start: nat): (r: seq<Element>)
    ensures |r| <= |es|
  {
    if es == [] then []
    else
      var before := Matching(es[..|es| - 1], kind, start);
      var last := es[|es| - 1];
      if Matches(last, kind, start) then before + [last] else before
  }

  lemma MatchingStep(es: seq<Element>, k: nat, kind: ElementType, start: nat)
    requires k < |es|
    ensures Matching(es[..k + 1], kind, start) ==
      Matching(es[..k], kind, start) + if Matches(es[k], kind, start) then [es[k]] else []
  {
    assert es[..k + 1][..k] == es[..k];
  }

  lemma {:induction false} MatchingPrefix(es: seq<Element>, k: nat, kind: ElementType, start: nat)
    requires k <= |es|
    ensures Matching(es[..k], kind, start) <= Matching(es, kind, start)
    decreases |es| - k
  {
    if k == |es| {
      assert es[..k] == es;
    } else {
      MatchingStep(es, k, kind, start);
      MatchingPrefix(es, k + 1, kind, start);
    }
  }

  // A matching element comes after the matching ones before it.
  lemma MatchingAt(es: seq<Element>, k: nat, kind: ElementType, start: nat)
    requires k < |es|
    ensures var n, all := |Matching(es[..k], kind, start)|, Matching(es, kind, start);
      if Matches(es[k], kind, start)
      then |Matching(es[..k + 1], kind, start)| == n + 1 <= |all| && all[n] == es[k]
      else |Matching(es[..k + 1], kind, start)| == n
  {
    MatchingStep(es, k, kind, start);
    MatchingPrefix(es, k + 1, kind, start);
  }

  // find_first_matching_element: the first in the list, not the lowest.
  method FindFirst(es: seq<Element>, start: nat, kind: ElementType) returns (r: nat)
    requires Sound(es)
    ensures r == if Matching(es, kind, start) == [] then 0 else Matching(es, kind, start)[0].location
  {
    for k := 0 to |es|
      invariant Matching(es[..k], kind, start) == []
    {
      MatchingStep(es, k, kind, start);
      if Matches(es[k], kind, start) {
        MatchingPrefix(es, k + 1, kind, start);
        return es[k].location;
      }
    }
    assert es[..|es|] == es;
    return 0;
  }

  // num_available_elements
  method NumAvailable(es: seq<Element>, kind: ElementType, start: nat, max: nat) returns (counted: nat)
    ensures counted == Least(max, |Matching(es, kind, start)|)
  {
    counted := 0;
    for k := 0 to |es|
      invariant counted == Least(max, |Matching(es[..k], kind, start)|)
    {
      MatchingStep(es, k, kind, start);
      if Matches(es[k], kind, start) && counted < max {
        counted := counted + 1;
      }
    }
    assert es[..|es|] == es;
  }

  // ------------------------------------------------------------- pages

  function PageHeader(m: Manner, q: Query, count: nat, kind: ElementType): (r: seq<byte>)
    ensures |r| == 8
  {
    [Code(kind),
     (if q.voltag then 0x80 else 0) + (if m.serialOnly && kind.DataTransfer? then 0x40 else 0)]
    + Be16(SizeOfElement(m, q, kind)) + [0] + Be24(SizeOfElement(m, q, kind) * count)
  }

  function Descriptors(m: Manner, q: Query, es: seq<Element>): seq<byte>
    requires Sound(es)
  {
    if es == [] then [] else Descriptors(m, q, es[..|es| - 1]) + FillDescriptor(m, q, es[|es| - 1])
  }

  // A page: header and descriptors; nothing at all for no elements.
  function PageBytes(m: Manner, q: Query, kind: ElementType, es: seq<Element>): seq<byte>
    requires Sound(es)
  {
    if es == [] then [] else PageHeader(m, q, |es|, kind) + Descriptors(m, q, es)
  }

  lemma TimesStep(size: nat, n: nat)
    ensures size * (n + 1) == size * n + size && size * 0 == 0
  {
  }

  lemma DescriptorsStep(m: Manner, q: Query, es: seq<Element>, n: nat)
    requires Sound(es) && n < |es|
    ensures Descriptors(m, q, es[..n + 1]) == Descriptors(m, q, es[..n]) + FillDescriptor(m, q, es[n])
  {
    assert es[..n + 1][..n] == es[..n];
  }

  // The descriptors of a page fill exactly what its header announces.
  lemma {:induction false} DescriptorsSize(m: Manner, q: Query, kind: ElementType, es: seq<Element>)
    requires Sound(es) && Tidy(m) && forall i :: 0 <= i < |es| ==> es[i].kind == kind
    ensures |Descriptors(m, q, es)| == SizeOfElement(m, q, kind) * |es|
  {
    var size := SizeOfElement(m, q, kind);
    if es == [] {
      TimesStep(size, 0);
    } else {
      var n := |es| - 1;
      DescriptorsSize(m, q, kind, es[..n]);
      DescriptorSize(m, q, es[n]);
      TimesStep(size, n);
    }
  }

  lemma {:induction false} MatchingIsSound(es: seq<Element>, kind: ElementType, start: nat)
    requires Sound(es)
    ensures Sound(Matching(es, kind, start))
    ensures forall i :: 0 <= i < |Matching(es, kind, start)| ==> Matches(Matching(es, kind, start)[i], kind, start)
  {
    if es != [] {
      MatchingIsSound(es[..|es| - 1], kind, start);
    }
  }

  // The first match is looked for by its address, and address 0 says that there
  // is none: then the others are not seen either.
  function Visible(es: seq<Element>, kind: ElementType, start: nat): (r: seq<Element>)
    requires Sound(es)
    ensures Sound(r) && forall i :: 0 <= i < |r| ==> Matches(r[i], kind, start)
  {
    MatchingIsSound(es, kind, start);
    var all := Matching(es, kind, start);
    if all != [] && all[0].location == 0 then [] else all
  }

  lemma AboveZero(es: seq<Element>, kind: ElementType, start: nat)
    requires Sound(es) && start > 0
    ensures Visible(es, kind, start) == Matching(es, kind, start)
  {
    MatchingIsSound(es, kind, start);
  }

  // The elements of one page: those of one type from start on, at most max.
  function PageElements(es: seq<Element>, kind: ElementType, start: nat, max: nat): (r: seq<Element>)
    requires Sound(es)
    ensures Sound(r) && |r| == Least(max, |Visible(es, kind, start)|)
    ensures forall i :: 0 <= i < |r| ==> Matches(r[i], kind, start)
  {
    Visible(es, kind, start)[..Least(max, |Visible(es, kind, start)|)]
  }

  // The limit the command sets; zero asks for as many as 16 bits can count.
  function Limit(q: Query): nat {
    if q.number == 0 then 0xffff else q.number
  }

  // fill_element_page
  method FillElementPage(es: seq<Element>, m: Manner, q: Query, start: nat, kind: ElementType, residual: nat)
    returns (p: seq<byte>)
    requires Sound(es) && !kind.Nothing?
    ensures p == PageBytes(m, q, kind,
      PageElements(es, kind, start, if residual < Limit(q) then Limit(q) - residual else 0))
  {
    p := [];
    if Limit(q) <= residual {
      return;
    }
    var maxCount := Limit(q) - residual;
    var begin := FindFirst(es, start, kind);
    MatchingIsSound(es, kind, start);
    if begin == 0 {
      return;
    }
    var avail := NumAvailable(es, kind, start, maxCount);
    var body := FillDescriptors(es, m, q, start, kind, maxCount);
    p := PageHeader(m, q, avail, kind) + body;
  }

  // The slots before the k-th, if they hold n matching elements, have given p.
  ghost predicate Filled(es: seq<Element>, m: Manner, q: Query, start: nat, kind: ElementType, k: nat, n: nat,
                         p: seq<byte>)
    requires Sound(es)
  {
    MatchingIsSound(es, kind, start);
    && k <= |es| && n == |Matching(es[..k], kind, start)| <= |Matching(es, kind, start)|
    && p == Descriptors(m, q, Matching(es, kind, start)[..n])
  }

  method NextDescriptor(es: seq<Element>, m: Manner, q: Query, start: nat, kind: ElementType, k: nat, n: nat,
                        p: seq<byte>)
    returns (n': nat, p': seq<byte>)
    requires Sound(es) && !kind.Nothing? && k < |es| && Filled(es, m, q, start, kind, k, n, p)
    ensures Filled(es, m, q, start, kind, k + 1, n', p') && n <= n' <= n + 1
  {
    n', p' := n, p;
    MatchingAt(es, k, kind, start);
    if es[k].location >= start && es[k].kind == kind {
      ghost var all := Matching(es, kind, start);
      MatchingIsSound(es, kind, start);
      DescriptorsStep(m, q, all, n);
      n', p' := n + 1, p + FillDescriptor(m, q, es[k]);
    }
  }

  lemma AllFilled(es: seq<Element>, kind: ElementType, start: nat, k: nat, n: nat, max: nat)
    requires Sound(es) && Visible(es, kind, start) == Matching(es, kind, start)
    requires k <= |es| && n == |Matching(es[..k], kind, start)| && n <= max && (k == |es| || n == max)
    ensures n <= |Matching(es, kind, start)| && PageElements(es, kind, start, max) == Matching(es, kind, start)[..n]
  {
    MatchingPrefix(es, k, kind, start);
    assert es[..|es|] == es;
  }

  // Its loop over the slots.
  method FillDescriptors(es: seq<Element>, m: Manner, q: Query, start: nat, kind: ElementType, maxCount: nat)
    returns (p: seq<byte>)
    requires Sound(es) && !kind.Nothing? && maxCount > 0
    requires Visible(es, kind, start) == Matching(es, kind, start)
    ensures p == Descriptors(m, q, PageElements(es, kind, start, maxCount))
  {
    p := [];
    var n, k := 0, 0;
    while k < |es| && n < maxCount
      invariant k <= |es| && n <= maxCount && Filled(es, m, q, start, kind, k, n, p)
    {
      n, p := NextDescriptor(es, m, q, start, kind, k, n, p);
      k := k + 1;
    }
    AllFilled(es, kind, start, k, n, maxCount);
  }

  // ------------------------------------------------- sorting the types

  predicate Ascending(s: seq<int>) {
    forall i, j :: 0 <= i < j < |s| ==> s[i] <= s[j]
  }

  method SwapNext(a: array<int>, j: nat)
    requires j + 1 < a.Length
    modifies a
    ensures a[j] == old(a[j + 1]) && a[j + 1] == old(a[j])
    ensures forall k :: 0 <= k < a.Length && k != j && k != j + 1 ==> a[k] == old(a[k])
    ensures multiset(a[..]) == multiset(old(a[..]))
  {
    var temp := a[j];
    a[j] := a[j + 1];
    a[j + 1] := temp;
  }

  // One pass over the first n - i + 1 entries carries their largest to the end.
  method BubblePass(a: array<int>, i: nat) returns (swapped: bool)
    requires 1 <= i < a.Length
    requires forall p, q :: 0 <= p < q < a.Length && a.Length - i < q ==> a[p] <= a[q]
    modifies a
    ensures multiset(a[..]) == multiset(old(a[..]))
    ensures forall p, q :: 0 <= p < q < a.Length && a.Length - i <= q ==> a[p] <= a[q]
    ensures !swapped ==> Ascending(a[..])
  {
    swapped := false;
    var j := 0;
    while j < a.Length - i
      invariant 0 <= j <= a.Length - i
      invariant multiset(a[..]) == multiset(old(a[..]))
      invariant forall p, q :: 0 <= p < q < a.Length && a.Length - i < q ==> a[p] <= a[q]
      invariant forall p :: 0 <= p < j ==> a[p] <= a[j]
      invariant !swapped ==> forall p, q :: 0 <= p < q <= j ==> a[p] <= a[q]
    {
      if a[j] > a[j + 1] {
        SwapNext(a, j);
        swapped := true;
      }
      j := j + 1;
    }
  }

  // bubbleSort, which stops after a pass without an exchange.
  method BubbleSort(a: array<int>)
    modifies a
    ensures Ascending(a[..]) && multiset(a[..]) == multiset(old(a[..]))
  {
    var i := 1;
    while i < a.Length
      invariant 1 <= i && (i <= a.Length || a.Length == 0)
      invariant multiset(a[..]) == multiset(old(a[..]))
      invariant forall p, q :: 0 <= p < q < a.Length && a.Length - i < q ==> a[p] <= a[q]
    {
      var swapped := BubblePass(a, i);
      if !swapped {
        return;
      }
      i := i + 1;
    }
  }

  datatype TypeSlot = TypeSlot(kind: ElementType, start: nat)

  function StartOf(l: Layout, kind: ElementType): nat {
    match kind
    case DataTransfer => l.startDrive
    case MediumTransport => l.startPicker
    case MapElement => l.startMap
    case StorageElement => l.startStorage
    case Nothing => 0
  }

  function Starts(l: Layout): seq<int> {
    [l.startDrive, l.startPicker, l.startMap, l.startStorage]
  }

  predicate DistinctStarts(l: Layout) {
    forall i, j :: 0 <= i < j < 4 ==> Starts(l)[i] != Starts(l)[j]
  }

  // Of types that start at the same address the last one tried is recorded.
  function KindAt(l: Layout, start: int): ElementType {
    if l.startStorage == start then StorageElement
    else if l.startMap == start then MapElement
    else if l.startPicker == start then MediumTransport
    else if l.startDrive == start then DataTransfer
    else Nothing
  }

  // The types of a library in the order of their addresses.
  predicate InOrder(l: Layout, types: seq<TypeSlot>) {
    && |types| == 4
    && (forall i :: 0 <= i < 4 ==> !types[i].kind.Nothing? && types[i].start == StartOf(l, types[i].kind))
    && (forall i, j :: 0 <= i < j < 4 ==> types[i].start < types[j].start)
  }

  method TypeStarting(l: Layout, start: int) returns (t: TypeSlot)
    requires start in Starts(l)
    ensures t.start == start && t.kind == KindAt(l, start)
  {
    t := TypeSlot(Nothing, 0);
    if l.startDrive == start {
      t := TypeSlot(DataTransfer, l.startDrive);
    }
    if l.startPicker == start {
      t := TypeSlot(MediumTransport, l.startPicker);
    }
    if l.startMap == start {
      t := TypeSlot(MapElement, l.startMap);
    }
    if l.startStorage == start {
      t := TypeSlot(StorageElement, l.startStorage);
    }
  }

  method SortedStarts(l: Layout) returns (sorted: seq<int>)
    ensures |sorted| == 4 && Ascending(sorted) && multiset(sorted) == multiset(Starts(l))
  {
    var arr := new int[4];
    arr[0], arr[1], arr[2], arr[3] := l.startDrive, l.startPicker, l.startMap, l.startStorage;
    assert arr[..] == Starts(l);
    BubbleSort(arr);
    sorted := arr[..];
  }

  // sort_library_slot_type
  method SortTypes(l: Layout) returns (types: seq<TypeSlot>, sorted: seq<int>)
    ensures |types| == |sorted| == 4 && Ascending(sorted) && multiset(sorted) == multiset(Starts(l))
    ensures forall i :: 0 <= i < 4 ==> types[i].start == sorted[i] && types[i].kind == KindAt(l, sorted[i])
  {
    sorted := SortedStarts(l);
    SameMembers(sorted, Starts(l));
    types := [];
    for i := 0 to 4
      invariant |types| == i
      invariant forall j :: 0 <= j < i ==> types[j].start == sorted[j] && types[j].kind == KindAt(l, sorted[j])
    {
      var t := TypeStarting(l, sorted[i]);
      types := types + [t];
    }
  }

  lemma SameMembers(a: seq<int>, b: seq<int>)
    requires multiset(a) == multiset(b)
    ensures forall i :: 0 <= i < |a| ==> a[i] in b
  {
    forall i | 0 <= i < |a|
      ensures a[i] in b
    {
      assert a[i] in multiset(a);
      assert a[i] in multiset(b);
    }
  }

  lemma {:induction false} NoRepeat(s: seq<int>, i: nat, j: nat)
    requires i < j < |s| && s[i] == s[j]
    ensures multiset(s)[s[i]] >= 2
  {
    assert s == s[..i] + [s[i]] + s[i + 1..j] + [s[j]] + s[j + 1..];
  }

  lemma OncePerStart(l: Layout, x: int)
    requires DistinctStarts(l)
    ensures multiset(Starts(l))[x] <= 1
  {
    var s := Starts(l);
    assert s[0] != s[1] && s[0] != s[2] && s[0] != s[3] && s[1] != s[2] && s[1] != s[3] && s[2] != s[3];
    assert multiset(s) == multiset{s[0], s[1], s[2], s[3]};
  }

  lemma DistinctSorts(l: Layout, sorted: seq<int>)
    requires |sorted| == 4 && Ascending(sorted) && multiset(sorted) == multiset(Starts(l))
    ensures DistinctStarts(l) <==> forall i, j :: 0 <= i < j < 4 ==> sorted[i] < sorted[j]
  {
    if DistinctStarts(l) {
      forall i, j | 0 <= i < j < 4
        ensures sorted[i] < sorted[j]
      {
        OncePerStart(l, sorted[i]);
        if sorted[i] == sorted[j] {
          NoRepeat(sorted, i, j);
        }
      }
    } else {
      var i, j :| 0 <= i < j < 4 && Starts(l)[i] == Starts(l)[j];
      NoRepeat(Starts(l), i, j);
      Repeated(sorted, Starts(l)[i]);
    }
  }

  // The sorted list has every type, in the order of their addresses, exactly
  // when no two types start at the same address.
  lemma SortedTypes(l: Layout, types: seq<TypeSlot>, sorted: seq<int>)
    requires |types| == |sorted| == 4 && Ascending(sorted) && multiset(sorted) == multiset(Starts(l))
    requires forall i :: 0 <= i < 4 ==> types[i].start == sorted[i] && types[i].kind == KindAt(l, sorted[i])
    ensures InOrder(l, types) <==> DistinctStarts(l)
  {
    DistinctSorts(l, sorted);
    SameMembers(sorted, Starts(l));
    forall i | 0 <= i < 4
      ensures !types[i].kind.Nothing? && types[i].start == StartOf(l, types[i].kind)
    {
      assert sorted[i] in Starts(l);
    }
  }

  lemma {:induction false} Repeated(s: seq<int>, x: int)
    requires multiset(s)[x] >= 2
    ensures exists i, j :: 0 <= i < j < |s| && s[i] == s[j]
  {
    if forall i, j :: 0 <= i < j < |s| ==> s[i] != s[j] {
      AtMostOnce(s, x);
    }
  }

  lemma {:induction false} AtMostOnce(s: seq<int>, x: int)
    requires forall i, j :: 0 <= i < j < |s| ==> s[i] != s[j]
    ensures multiset(s)[x] <= 1
  {
    if s != [] {
      var n := |s| - 1;
      AtMostOnce(s[..n], x);
      assert s == s[..n] + [s[n]];
      assert multiset(s) == multiset(s[..n]) + multiset{s[n]};
      if s[n] == x {
        assert x !in s[..n];
      }
    }
  }

  // ------------------------------------------------- the whole report

  function StatusHeader(start: nat, count: nat, bytes: nat): (r: seq<byte>)
    ensures |r| == 8
  {
    Be16(start) + Be16(count) + [0] + Be24(bytes)
  }

  function NumOf(l: Layout, kind: ElementType): nat {
    match kind
    case DataTransfer => l.numDrives
    case MediumTransport => l.numPicker
    case MapElement => l.numMap
    case StorageElement => l.numStorage
    case Nothing => 0
  }

  // The address ranges of the types do not overlap, and every element lies in
  // the range of its type.
  predicate Separate(l: Layout) {
    DistinctStarts(l) && forall a: ElementType, b: ElementType ::
      !a.Nothing? && !b.Nothing? && StartOf(l, a) < StartOf(l, b) ==> StartOf(l, a) + NumOf(l, a) <= StartOf(l, b)
  }

  predicate WellLaid(es: seq<Element>, l: Layout) {
    Separate(l) && forall i :: 0 <= i < |es| ==> es[i].kind == l.SlotType(es[i].location)
  }

  // Type by type, the elements from an address on.
  function Lists(es: seq<Element>, types: seq<TypeSlot>, start: nat): (r: seq<seq<Element>>)
    requires Sound(es)
    ensures |r| == |types| && forall i :: 0 <= i < |r| ==> r[i] == Matching(es, types[i].kind, start)
    ensures AllSound(r)
  {
    ListsAreSound(es, types, start);
    seq(|types|, i requires 0 <= i < |types| => Matching(es, types[i].kind, start))
  }

  lemma ListsAreSound(es: seq<Element>, types: seq<TypeSlot>, start: nat)
    requires Sound(es)
    ensures forall i :: 0 <= i < |types| ==> Sound(Matching(es, types[i].kind, start))
  {
    forall i | 0 <= i < |types|
      ensures Sound(Matching(es, types[i].kind, start))
    {
      MatchingIsSound(es, types[i].kind, start);
    }
  }

  predicate AllSound(lists: seq<seq<Element>>) {
    forall i :: 0 <= i < |lists| ==> Sound(lists[i])
  }

  function Front(s: seq<Element>, room: nat): (r: seq<Element>)
    ensures |r| == Least(room, |s|)
  {
    s[..Least(room, |s|)]
  }

  // The pages of the types from the i-th on, with room for so many elements.
  function ReportBytes(m: Manner, q: Query, types: seq<TypeSlot>, lists: seq<seq<Element>>,
                       i: nat, room: nat): seq<byte>
    requires AllSound(lists) && i <= |types| == |lists|
    decreases |types| - i
  {
    if i == |types| then []
    else
      var page := Front(lists[i], room);
      PageBytes(m, q, types[i].kind, page) + ReportBytes(m, q, types, lists, i + 1, room - |page|)
  }

  // The elements on those pages, in the order of the report.
  function Reported(lists: seq<seq<Element>>, i: nat, room: nat): seq<Element>
    requires i <= |lists|
    decreases |lists| - i
  {
    if i == |lists| then []
    else
      var page := Front(lists[i], room);
      page + Reported(lists, i + 1, room - |page|)
  }

  function Joined(lists: seq<seq<Element>>, i: nat): seq<Element>
    requires i <= |lists|
    decreases |lists| - i
  {
    if i == |lists| then [] else lists[i] + Joined(lists, i + 1)
  }

  lemma CutInTwo(a: seq<Element>, b: seq<Element>, room: nat)
    ensures Front(a + b, room) == Front(a, room) + Front(b, room - |Front(a, room)|)
  {
  }

  // The report lists the elements type by type, as far as there is room.
  lemma {:induction false} ReportedIsCut(lists: seq<seq<Element>>, i: nat, room: nat)
    requires i <= |lists|
    ensures Reported(lists, i, room) == Front(Joined(lists, i), room)
    decreases |lists| - i
  {
    if i < |lists| {
      CutInTwo(lists[i], Joined(lists, i + 1), room);
      ReportedIsCut(lists, i + 1, room - |Front(lists[i], room)|);
    }
  }

  lemma InRange(l: Layout, addr: nat)
    ensures var k := l.SlotType(addr); !k.Nothing? ==> StartOf(l, k) <= addr < StartOf(l, k) + NumOf(l, k)
  {
  }

  lemma {:induction false} MatchingAgrees(es: seq<Element>, kind: ElementType, a: nat, b: nat)
    requires forall i :: 0 <= i < |es| ==> (Matches(es[i], kind, a) <==> Matches(es[i], kind, b))
    ensures Matching(es, kind, a) == Matching(es, kind, b)
  {
    if es != [] {
      MatchingAgrees(es[..|es| - 1], kind, a, b);
    }
  }

  lemma {:induction false} MatchingNone(es: seq<Element>, kind: ElementType, start: nat)
    requires forall i :: 0 <= i < |es| ==> !Matches(es[i], kind, start)
    ensures Matching(es, kind, start) == []
  {
    if es != [] {
      MatchingNone(es[..|es| - 1], kind, start);
    }
  }

  function Occurs(es: seq<Element>, kind: ElementType, start: nat, e: Element): nat {
    multiset(Matching(es, kind, start))[e]
  }

  lemma OccursStep(es: seq<Element>, kind: ElementType, start: nat, e: Element)
    requires es != []
    ensures var n := |es| - 1;
      Occurs(es, kind, start, e) ==
        Occurs(es[..n], kind, start, e) + if Matches(es[n], kind, start) && es[n] == e then 1 else 0
  {
  }

  // Elements of any type are those of the four types together.
  lemma {:induction false} FourTypes(es: seq<Element>, start: nat, e: Element)
    requires Sound(es)
    ensures Occurs(es, Nothing, start, e) ==
      Occurs(es, DataTransfer, start, e) + Occurs(es, MediumTransport, start, e) +
      Occurs(es, MapElement, start, e) + Occurs(es, StorageElement, start, e)
  {
    if es != [] {
      FourTypes(es[..|es| - 1], start, e);
      OccursStep(es, Nothing, start, e);
      OccursStep(es, DataTransfer, start, e);
      OccursStep(es, MediumTransport, start, e);
      OccursStep(es, MapElement, start, e);
      OccursStep(es, StorageElement, start, e);
    }
  }

  lemma AllKindsListed(l: Layout, types: seq<TypeSlot>)
    requires InOrder(l, types)
    ensures forall i, j :: 0 <= i < j < 4 ==> types[i].kind != types[j].kind
  {
  }

  lemma EveryKindListed(l: Layout, types: seq<TypeSlot>, kind: ElementType)
    requires InOrder(l, types) && !kind.Nothing?
    ensures exists i :: 0 <= i < 4 && types[i].kind == kind
  {
    AllKindsListed(l, types);
    var k0, k1, k2, k3 := types[0].kind, types[1].kind, types[2].kind, types[3].kind;
    assert k0 != k1 && k0 != k2 && k0 != k3 && k1 != k2 && k1 != k3 && k2 != k3;
    assert k0 == kind || k1 == kind || k2 == kind || k3 == kind;
  }

  lemma JoinedFour(lists: seq<seq<Element>>, e: Element)
    requires |lists| == 4
    ensures multiset(Joined(lists, 0))[e] ==
      multiset(lists[0])[e] + multiset(lists[1])[e] + multiset(lists[2])[e] + multiset(lists[3])[e]
  {
    assert Joined(lists, 4) == [];
    assert Joined(lists, 3) == lists[3];
    assert Joined(lists, 2) == lists[2] + lists[3];
    assert Joined(lists, 1) == lists[1] + (lists[2] + lists[3]);
  }

  // Type by type, each matching element is listed as often as it is there.
  lemma EveryElementOnce(es: seq<Element>, l: Layout, types: seq<TypeSlot>, start: nat)
    requires Sound(es) && InOrder(l, types)
    ensures multiset(Joined(Lists(es, types, start), 0)) == multiset(Matching(es, Nothing, start))
  {
    AllKindsListed(l, types);
    var k0, k1, k2, k3 := types[0].kind, types[1].kind, types[2].kind, types[3].kind;
    assert k0 != k1 && k0 != k2 && k0 != k3 && k1 != k2 && k1 != k3 && k2 != k3;
    forall e: Element
      ensures multiset(Joined(Lists(es, types, start), 0))[e] == Occurs(es, Nothing, start, e)
    {
      JoinedFour(Lists(es, types, start), e);
      FourTypes(es, start, e);
    }
  }

  // An element of the i-th type lies before every later type.
  lemma BeforeLater(es: seq<Element>, l: Layout, types: seq<TypeSlot>, e: nat, i: nat, j: nat)
    requires Sound(es) && WellLaid(es, l) && InOrder(l, types)
    requires e < |es| && i < j < 4 && es[e].kind == types[i].kind
    ensures types[i].start <= es[e].location < types[j].start
  {
    InRange(l, es[e].location);
  }

  // From an address in the range of the i-th type on: no earlier type has
  // any element, and of a later type every element counts, whether from that
  // address or from the start of the type.
  lemma OtherTypes(es: seq<Element>, l: Layout, types: seq<TypeSlot>, first: nat, i: nat, j: nat)
    requires Sound(es) && WellLaid(es, l) && InOrder(l, types)
    requires first < |es| && i < 4 && j < 4 && i != j && es[first].kind == types[i].kind
    ensures j < i ==> Matching(es, types[j].kind, es[first].location) == []
    ensures i < j ==>
      Matching(es, types[j].kind, types[j].start) == Matching(es, types[j].kind, es[first].location)
  {
    var start := es[first].location;
    InRange(l, start);
    forall e | 0 <= e < |es| && es[e].kind == types[j].kind
      ensures j < i ==> es[e].location < start
      ensures i < j ==> es[e].location >= start && es[e].location >= types[j].start
    {
      InRange(l, es[e].location);
      if j < i {
        BeforeLater(es, l, types, e, j, i);
      } else {
        BeforeLater(es, l, types, first, i, j);
      }
    }
    if j < i {
      MatchingNone(es, types[j].kind, start);
    } else {
      MatchingAgrees(es, types[j].kind, types[j].start, start);
    }
  }

  lemma EmptyPage(m: Manner, q: Query, types: seq<TypeSlot>, lists: seq<seq<Element>>, k: nat, room: nat)
    requires AllSound(lists) && k < |types| == |lists| && lists[k] == []
    ensures ReportBytes(m, q, types, lists, k, room) == ReportBytes(m, q, types, lists, k + 1, room)
  {
    assert Front(lists[k], room) == [];
    assert [] + ReportBytes(m, q, types, lists, k + 1, room) == ReportBytes(m, q, types, lists, k + 1, room);
  }

  // Types that have nothing to list have no page.
  lemma EmptyPages(m: Manner, q: Query, types: seq<TypeSlot>, lists: seq<seq<Element>>, i: nat, room: nat)
    requires AllSound(lists) && i < |types| == |lists| && forall j :: 0 <= j < i ==> lists[j] == []
    ensures ReportBytes(m, q, types, lists, 0, room) == ReportBytes(m, q, types, lists, i, room)
  {
    var k: nat := i;
    while k > 0
      invariant k <= i && ReportBytes(m, q, types, lists, k, room) == ReportBytes(m, q, types, lists, i, room)
    {
      k := k - 1;
      EmptyPage(m, q, types, lists, k, room);
    }
  }

  // The count taken back from a page's length.
  lemma CountBack(m: Manner, q: Query, kind: ElementType, es: seq<Element>)
    requires Sound(es) && Tidy(m) && forall i :: 0 <= i < |es| ==> es[i].kind == kind
    ensures |PageBytes(m, q, kind, es)| / SizeOfElement(m, q, kind) == |es|
  {
    var size, length := SizeOfElement(m, q, kind), |PageBytes(m, q, kind, es)|;
    DescriptorsSize(m, q, kind, es);
    TimesStep(size, 0);
    DivideExactly(length, size, |es|);
  }

  // The index of the type the report starts with.
  method StartType(types: seq<TypeSlot>, kind: ElementType) returns (i: nat)
    ensures i <= |types|
    ensures i < |types| ==> types[i].kind == kind
    ensures i == |types| ==> forall j :: 0 <= j < |types| ==> types[j].kind != kind
  {
    i := 0;
    while i < |types| && types[i].kind != kind
      invariant i <= |types| && forall j :: 0 <= j < i ==> types[j].kind != kind
    {
      i := i + 1;
    }
  }

  // The page of one type, and the number of its elements taken back from it.
  method FillType(es: seq<Element>, m: Manner, q: Query, startAny: nat, kind: ElementType, sum: nat)
    returns (p: seq<byte>, more: nat)
    requires Sound(es) && Tidy(m) && !kind.Nothing? && sum <= Limit(q)
    ensures var page := PageElements(es, kind, startAny, Limit(q) - sum);
      p == PageBytes(m, q, kind, page) && more == |page|
  {
    p := FillElementPage(es, m, q, startAny, kind, sum);
    CountBack(m, q, kind, PageElements(es, kind, startAny, Limit(q) - sum));
    more := |p| / SizeOfElement(m, q, kind);
  }

  // The address the page of the i-th type counts from.
  function CountsFrom(types: seq<TypeSlot>, i0: nat, i: nat, start: nat): nat
    requires i < |types|
  {
    if i == i0 then start else types[i].start
  }

  // Each page lists what its type has from an address on, from the i0-th type
  // on; earlier types have nothing.
  ghost predicate ListsAll(es: seq<Element>, types: seq<TypeSlot>, i0: nat, start: nat, lists: seq<seq<Element>>) {
    && |types| == |lists| == 4 && AllSound(lists)
    && (forall i :: 0 <= i < i0 && i < 4 ==> lists[i] == [])
    && (forall i :: i0 <= i < 4 ==>
        && !types[i].kind.Nothing? && CountsFrom(types, i0, i, start) > 0
        && Matching(es, types[i].kind, CountsFrom(types, i0, i, start)) == lists[i])
  }

  lemma EachPageListsAll(es: seq<Element>, l: Layout, types: seq<TypeSlot>, first: nat, i0: nat)
    requires Sound(es) && WellLaid(es, l) && InOrder(l, types)
    requires first < |es| && i0 < 4 && es[first].kind == types[i0].kind && es[first].location > 0
    ensures ListsAll(es, types, i0, es[first].location, Lists(es, types, es[first].location))
  {
    forall i | 0 <= i < 4 && i != i0
      ensures i < i0 ==> Matching(es, types[i].kind, es[first].location) == []
      ensures i > i0 ==> Matching(es, types[i].kind, types[i].start) == Matching(es, types[i].kind, es[first].location)
    {
      OtherTypes(es, l, types, first, i0, i);
    }
  }

  // The page of the i-th type, after those of earlier types with sum elements;
  // rest is what is still to come.
  method FillNext(es: seq<Element>, m: Manner, q: Query, types: seq<TypeSlot>, startAny: nat, i: nat, sum: nat,
                  body: seq<byte>, ghost lists: seq<seq<Element>>, ghost rest: seq<byte>)
    returns (body': seq<byte>, sum': nat, ghost rest': seq<byte>)
    requires Sound(es) && Tidy(m) && sum <= Limit(q)
    requires AllSound(lists) && i < |types| == |lists|
    requires !types[i].kind.Nothing? && startAny > 0 && Matching(es, types[i].kind, startAny) == lists[i]
    requires rest == ReportBytes(m, q, types, lists, i, Limit(q) - sum)
    ensures sum' <= Limit(q) && rest' == ReportBytes(m, q, types, lists, i + 1, Limit(q) - sum')
    ensures body' + rest' == body + rest
  {
    AboveZero(es, types[i].kind, startAny);
    var p, more := FillType(es, m, q, startAny, types[i].kind, sum);
    body', sum' := body + p, sum + more;
    rest' := ReportBytes(m, q, types, lists, i + 1, Limit(q) - sum');
    Regroup(body, p, rest');
  }

  // One page for each type from the i-th on.
  method FillPages(es: seq<Element>, m: Manner, q: Query, types: seq<TypeSlot>, start: nat, i0: nat,
                   ghost lists: seq<seq<Element>>)
    returns (body: seq<byte>)
    requires Sound(es) && Tidy(m) && i0 < 4 && ListsAll(es, types, i0, start, lists)
    ensures body == ReportBytes(m, q, types, lists, 0, Limit(q))
  {
    ghost var rest := ReportBytes(m, q, types, lists, i0, Limit(q));
    ghost var whole := rest;
    EmptyPages(m, q, types, lists, i0, Limit(q));
    body := [];
    var sum: nat, startAny, i := 0, start, i0;
    while i < 4
      invariant i0 <= i <= 4 && sum <= Limit(q) && body + rest == whole
      invariant rest == ReportBytes(m, q, types, lists, i, Limit(q) - sum)
      invariant i < 4 ==> startAny == CountsFrom(types, i0, i, start)
    {
      body, sum, rest := FillNext(es, m, q, types, startAny, i, sum, body, lists, rest);
      i := i + 1;
      if i < 4 {
        startAny := types[i].start;
      }
    }
  }

  // smc_read_element_status: nothing to report is an error, and so is a first
  // match at address 0; the data returned is cut to the allocation length. types
  // are the types in order of address.
  method ReadElementStatus(es: seq<Element>, m: Manner, q: Query)
    returns (ok: bool, data: seq<byte>, sz: nat, ghost types: seq<TypeSlot>)
    requires Sound(es) && Tidy(m) && WellLaid(es, m.layout) && q.number < 0x1_0000
    ensures ok <==> Matching(es, q.kind, q.start) != [] && Matching(es, q.kind, q.start)[0].location > 0
    ensures ok && q.kind.Nothing? ==> InOrder(m.layout, types)
    ensures ok ==>
      data == ReplyData(es, m, q, types, Matching(es, q.kind, q.start)[0].location) && sz == Least(|data|, q.allocation)
  {
    ok, data, sz, types := false, [], 0, [];
    var start := FindFirst(es, q.start, q.kind);
    MatchingIsSound(es, q.kind, q.start);
    if start == 0 {
      return;
    }
    MatchingIsThere(es, q.kind, q.start);
    var body;
    if q.kind.Nothing? {
      body, types := ReportAny(es, m, q, start);
    } else {
      body := FillElementPage(es, m, q, start, q.kind, 0);
    }
    var count := NumAvailable(es, q.kind, start, q.number);
    data := StatusHeader(start, count, |body|) + body;
    ok, sz := true, Least(|data|, q.allocation);
  }

  lemma {:induction false} MatchingIsThere(es: seq<Element>, kind: ElementType, start: nat)
    requires Matching(es, kind, start) != []
    ensures exists k :: 0 <= k < |es| && es[k] == Matching(es, kind, start)[0]
  {
    var n := |es| - 1;
    if Matching(es[..n], kind, start) != [] {
      MatchingIsThere(es[..n], kind, start);
      var k :| 0 <= k < n && es[..n][k] == Matching(es[..n], kind, start)[0];
      assert es[k] == Matching(es, kind, start)[0];
    } else {
      assert es[n] == Matching(es, kind, start)[0];
    }
  }

  // Elements of any type: one page a type, in the order of the addresses.
  method ReportAny(es: seq<Element>, m: Manner, q: Query, start: nat) returns (body: seq<byte>, types: seq<TypeSlot>)
    requires Sound(es) && Tidy(m) && WellLaid(es, m.layout) && start > 0
    requires exists k :: 0 <= k < |es| && es[k].location == start
    ensures InOrder(m.layout, types)
    ensures body == ReportBytes(m, q, types, Lists(es, types, start), 0, Limit(q))
  {
    var sorted;
    types, sorted := SortTypes(m.layout);
    SortedTypes(m.layout, types, sorted);
    ghost var first: nat :| first < |es| && es[first].location == start;
    var i := StartType(types, m.layout.SlotType(start));
    EveryKindListed(m.layout, types, m.layout.SlotType(start));
    EachPageListsAll(es, m.layout, types, first, i);
    body := FillPages(es, m, q, types, start, i, Lists(es, types, start));
  }

  // ------------------------------------------- what the numbers announce

  function U16(p: seq<byte>): nat
    requires |p| == 2
  {
    (p[0] as int) * 256 + p[1]
  }

  function U24(p: seq<byte>): nat
    requires |p| == 3
  {
    (p[0] as int) * 65536 + (p[1] as int) * 256 + p[2]
  }

  lemma BigEndian(x: nat, y: nat)
    requires x < 0x1_0000 && y < 0x100_0000
    ensures U16(Be16(x)) == x && U24(Be24(y)) == y
  {
  }

  // A page of any size the command can ask for announces its own descriptors:
  // the size of one, and their bytes together.
  lemma PageAnnounces(m: Manner, q: Query, kind: ElementType, es: seq<Element>)
    requires Sound(es) && (forall i :: 0 <= i < |es| ==> es[i].kind == kind)
    requires Tidy(m) && m.dvcidLen < 200 && 0 < |es| < 0x1_0000
    ensures var bytes := PageBytes(m, q, kind, es);
      && |bytes| >= 8 && bytes[0] == Code(kind)
      && U24(bytes[5..8]) == |bytes| - 8 == U16(bytes[2..4]) * |es|
  {
    var size, n := SizeOfElement(m, q, kind), |es|;
    DescriptorsSize(m, q, kind, es);
    PageIsShort(size, n);
    BigEndian(size, size * n);
    var bytes := PageBytes(m, q, kind, es);
    assert bytes[2..4] == Be16(size) && bytes[5..8] == Be24(size * n);
  }

  lemma PageIsShort(size: nat, n: nat)
    requires size < 256 && n < 0x1_0000
    ensures size * n < 0x100_0000
  {
  }

  // The elements a report from an address on lists, and its bytes after the header.
  function Listed(es: seq<Element>, q: Query, types: seq<TypeSlot>, start: nat): seq<Element>
    requires Sound(es)
  {
    if q.kind.Nothing? then Reported(Lists(es, types, start), 0, Limit(q))
    else PageElements(es, q.kind, start, Limit(q))
  }

  function Body(es: seq<Element>, m: Manner, q: Query, types: seq<TypeSlot>, start: nat): seq<byte>
    requires Sound(es)
  {
    if q.kind.Nothing? then ReportBytes(m, q, types, Lists(es, types, start), 0, Limit(q))
    else PageBytes(m, q, q.kind, PageElements(es, q.kind, start, Limit(q)))
  }

  function ReplyData(es: seq<Element>, m: Manner, q: Query, types: seq<TypeSlot>, start: nat): seq<byte>
    requires Sound(es)
  {
    var body := Body(es, m, q, types, start);
    StatusHeader(start, Least(q.number, |Matching(es, q.kind, start)|), |body|) + body
  }

  lemma PageIsBounded(m: Manner, q: Query, kind: ElementType, es: seq<Element>)
    requires Sound(es) && Tidy(m) && m.dvcidLen < 200 && forall i :: 0 <= i < |es| ==> es[i].kind == kind
    ensures |PageBytes(m, q, kind, es)| <= 8 + 255 * |es|
  {
    DescriptorsSize(m, q, kind, es);
    MulOrder(|es|, SizeOfElement(m, q, kind), 255);
  }

  predicate OfTheirKinds(types: seq<TypeSlot>, lists: seq<seq<Element>>) {
    |types| == |lists| && forall i, j :: 0 <= i < |lists| && 0 <= j < |lists[i]| ==> lists[i][j].kind == types[i].kind
  }

  lemma {:induction false} ReportIsBounded(m: Manner, q: Query, types: seq<TypeSlot>, lists: seq<seq<Element>>, i: nat,
                                           room: nat)
    requires AllSound(lists) && OfTheirKinds(types, lists) && i <= |types| && Tidy(m) && m.dvcidLen < 200
    ensures |ReportBytes(m, q, types, lists, i, room)| <= 8 * (|types| - i) + 255 * |Reported(lists, i, room)|
    decreases |types| - i
  {
    if i < |types| {
      var page := Front(lists[i], room);
      PageIsBounded(m, q, types[i].kind, page);
      ReportIsBounded(m, q, types, lists, i + 1, room - |page|);
    }
  }

  // The body is the pages of the elements listed, and short enough to be announced.
  lemma BodyIsBounded(es: seq<Element>, m: Manner, q: Query, types: seq<TypeSlot>, start: nat)
    requires Sound(es) && Tidy(m) && m.dvcidLen < 200 && |types| == 4
    requires forall i :: 0 <= i < 4 ==> !types[i].kind.Nothing?
    ensures |Body(es, m, q, types, start)| <= 32 + 255 * |Listed(es, q, types, start)|
  {
    if q.kind.Nothing? {
      var lists: seq<seq<Element>> := Lists(es, types, start);
      forall i, j | 0 <= i < 4 && 0 <= j < |lists[i]|
        ensures lists[i][j].kind == types[i].kind
      {
        MatchingIsSound(es, types[i].kind, start);
      }
      ReportIsBounded(m, q, types, lists, 0, Limit(q));
    } else {
      PageIsBounded(m, q, q.kind, PageElements(es, q.kind, start, Limit(q)));
    }
  }

  // How many there are.
  lemma ListedCount(es: seq<Element>, l: Layout, q: Query, types: seq<TypeSlot>, start: nat)
    requires Sound(es) && InOrder(l, types) && start > 0
    ensures |Listed(es, q, types, start)| == Least(Limit(q), |Matching(es, q.kind, start)|)
  {
    if q.kind.Nothing? {
      ReportedCount(es, l, types, start, Limit(q));
    } else {
      AboveZero(es, q.kind, start);
    }
  }

  // The reply announces what it holds: the header, decoded, gives the address
  // it starts from, the number of elements on its pages, and its own length.
  lemma ReplyAnnounces(es: seq<Element>, m: Manner, q: Query, types: seq<TypeSlot>, start: nat)
    requires Sound(es) && |es| < 0x1_0000 && Tidy(m) && m.dvcidLen < 200 && InOrder(m.layout, types)
    requires 0 < q.number < 0x1_0000 && 0 < start < 0x1_0000
    ensures var data := ReplyData(es, m, q, types, start);
      && U16(data[0..2]) == start
      && U16(data[2..4]) == |Listed(es, q, types, start)|
      && U24(data[5..8]) == |data| - 8 == |Body(es, m, q, types, start)|
  {
    var body := Body(es, m, q, types, start);
    var count := Least(q.number, |Matching(es, q.kind, start)|);
    BodyIsBounded(es, m, q, types, start);
    ListedCount(es, m.layout, q, types, start);
    BigEndian(start, |body|);
    BigEndian(count, |body|);
    var data := ReplyData(es, m, q, types, start);
    assert data[0..2] == Be16(start) && data[2..4] == Be16(count) && data[5..8] == Be24(|body|);
  }

  // The number of elements on the pages of any type.
  lemma ReportedCount(es: seq<Element>, l: Layout, types: seq<TypeSlot>, start: nat, room: nat)
    requires Sound(es) && InOrder(l, types)
    ensures |Reported(Lists(es, types, start), 0, room)| == Least(room, |Matching(es, Nothing, start)|)
  {
    var lists := Lists(es, types, start);
    ReportedIsCut(lists, 0, room);
    EveryElementOnce(es, l, types, start);
    assert |multiset(Joined(lists, 0))| == |multiset(Matching(es, Nothing, start))|;
  }

  // The header counts the elements on the pages exactly when the command asks
  // for a number of elements; for zero it counts none of them.
  lemma HeaderCount(es: seq<Element>, l: Layout, types: seq<TypeSlot>, start: nat, q: Query)
    requires Sound(es) && InOrder(l, types) && q.number < 0x1_0000 && Matching(es, Nothing, start) != []
    ensures Least(q.number, |Matching(es, Nothing, start)|) == |Reported(Lists(es, types, start), 0, Limit(q))| <==>
      q.number > 0
  {
    ReportedCount(es, l, types, start, Limit(q));
  }

  // Every matching element from the asked address on is in reach of the report
  // exactly when none precedes the first one in the list.
  lemma {:induction false} NothingPassedOver(es: seq<Element>, kind: ElementType, from: nat)
    requires Matching(es, kind, from) != []
    ensures var start := Matching(es, kind, from)[0].location;
      Matching(es, kind, start) == Matching(es, kind, from) <==>
      forall i :: 0 <= i < |es| && Matches(es[i], kind, from) ==> es[i].location >= start
  {
    var start := Matching(es, kind, from)[0].location;
    MatchingIsThere(es, kind, from);
    var k :| 0 <= k < |es| && es[k] == Matching(es, kind, from)[0];
    MatchingMember(es, kind, from);
    if forall i :: 0 <= i < |es| && Matches(es[i], kind, from) ==> es[i].location >= start {
      MatchingAgrees(es, kind, from, start);
    } else {
      var i :| 0 <= i < |es| && Matches(es[i], kind, from) && es[i].location < start;
      assert es[i] in Matching(es, kind, from);
      MatchingMember(es, kind, start);
    }
  }

  lemma {:induction false} MatchingMember(es: seq<Element>, kind: ElementType, start: nat)
    ensures forall i :: 0 <= i < |es| && Matches(es[i], kind, start) ==> es[i] in Matching(es, kind, start)
    ensures forall i :: 0 <= i < |Matching(es, kind, start)| ==> Matches(Matching(es, kind, start)[i], kind, start)
  {
    if es != [] {
      var n := |es| - 1;
      MatchingMember(es[..n], kind, start);
      forall i | 0 <= i < |es| && Matches(es[i], kind, start)
        ensures es[i] in Matching(es, kind, start)
      {
        if i < n {
          assert es[..n][i] == es[i];
        }
      }
    }
  }

  // ------------------------------------------------------------- examples

  // The default personality announces identifiers of 32 bytes and writes 34: a
  // drive's descriptor is two bytes longer than announced.
  lemma DefaultPersonalityMiscounts(m: Manner, q: Query, e: Element)
    requires !m.serialOnly && m.dvcidLen == 32 && q.dvcid && e.kind.DataTransfer? && !IsFull(e.status)
    ensures |FillDescriptor(m, q, e)| == SizeOfElement(m, q, e.kind) + 2
  {
  }

  // Of one element, asked for as "all of them", the header counts none.
  lemma NoneOfOne(l: Layout, types: seq<TypeSlot>, q: Query, e: Element)
    requires InOrder(l, types) && Sound([e]) && e.location > 0 && q.number == 0
    ensures Least(q.number, |Matching([e], Nothing, 1)|) == 0
    ensures |Reported(Lists([e], types, 1), 0, Limit(q))| == 1
  {
    assert [e][..0] == [];
    assert Matching([e], Nothing, 1) == [e];
    ReportedCount([e], l, types, 1, Limit(q));
  }

  // A slot listed before one with a lower address keeps that one out of the report.
  lemma LowerSlotIsPassedOver(a: Element, b: Element, kind: ElementType)
    requires a.kind == b.kind == kind && a.location == 5 && b.location == 3
    ensures Matching([a, b], kind, 1)[0] == a && b in Matching([a, b], kind, 1)
    ensures b !in Matching([a, b], kind, 5)
  {
    assert [a, b][..1] == [a] && [a][..0] == [];
    assert Matching([a, b], kind, 1) == [a, b];
    assert Matching([a, b], kind, 5) == [a];
  }

  // The Overland personality, with one mail slot: it has address 0, and the
  // library answers that there is no such element.
  method OverlandMailSlot(slot: Element) returns (ok: bool, available: nat)
    requires slot.kind.MapElement? && slot.location == 0 && (IsFull(slot.status) ==> slot.media.Some?)
    ensures available == 1 && !ok
  {
    var es, m := [slot], Manner(Layout(0xff, 1, 1, 1, 0, 1, 2, 20), false, false, 34, true);
    assert es[..0] == [] && Matching(es, MapElement, 0) == es;
    assert Starts(m.layout) == [0xff, 1, 0, 2];
    available := NumAvailable(es, MapElement, 0, 0xffff);
    var data, sz;
    ghost var types;
    ok, data, sz, types := ReadElementStatus(es, m, Query(MapElement, 0, 10, 0x1_0000, true, true));
  }
}
