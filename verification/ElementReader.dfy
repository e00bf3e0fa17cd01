// Reading a READ ELEMENT STATUS reply as an initiator does, from the byte
// layout of section 6.12 of SMC-3 alone.

module ElementReader {
  import opened Basics
  import opened Files
  import opened Library
  import opened ElementStatus

  // What an initiator learns of one element.
  datatype Seen = Seen(
    kind: ElementType, address: nat, full: bool, impExp: bool, access: bool, ascAscq: nat, bus: nat,
    sourceValid: bool, mediumType: nat, source: nat, tag: seq<byte>, identifier: seq<byte>)

  // A byte, a field of two and a field of n, as far as the bytes go.
  function At(d: seq<byte>, i: nat): nat {
    if i < |d| then d[i] else 0
  }

  function Two(d: seq<byte>, i: nat): nat {
    256 * At(d, i) + At(d, i + 1)
  }

  function Field(d: seq<byte>, i: nat, n: nat): seq<byte> {
    if i + n <= |d| then d[i..i + n] else []
  }

  function KindOf(code: nat): ElementType {
    match code
    case 1 => MediumTransport
    case 2 => StorageElement
    case 3 => MapElement
    case 4 => DataTransfer
    case _ => Nothing
  }

  // One descriptor, of a page of one type, with volume tags or without.
  function See(kind: ElementType, tagged: bool, d: seq<byte>): Seen {
    var identifier := if tagged then 48 else 12;
    Seen(kind, Two(d, 0), At(d, 2) % 2 == 1, At(d, 2) / 2 % 2 == 1, At(d, 2) / 8 % 2 == 1, Two(d, 4), At(d, 7),
         At(d, 9) >= 128, At(d, 9) % 16, Two(d, 10),
         if tagged then Field(d, 12, 36) else [], Field(d, identifier + 4, At(d, identifier + 3)))
  }

  function SeeAll(kind: ElementType, tagged: bool, size: nat, d: seq<byte>): seq<Seen> {
    if size == 0 || |d| < size then []
    else [See(kind, tagged, d[..size])] + SeeAll(kind, tagged, size, d[size..])
  }

  // Page after page, each by its own header.
  function SeePages(d: seq<byte>): seq<Seen> {
    if |d| < 8 then []
    else
      var n := U24(d[5..8]);
      if |d| < 8 + n then []
      else SeeAll(KindOf(d[0]), d[1] >= 0x80, U16(d[2..4]), d[8..8 + n]) + SeePages(d[8 + n..])
  }

  function SeeReply(d: seq<byte>): seq<Seen> {
    if |d| < 8 then [] else SeePages(d[8..])
  }

  // ------------------------------------------------------ what there is to see

  function Shown(m: Manner, q: Query, e: Element): Seen
    requires IsFull(e.status) ==> e.media.Some?
  {
    Seen(e.kind, e.location, e.status % 2 == 1, e.status / 2 % 2 == 1,
         if e.kind.MapElement? then m.capClosed else e.status / 8 % 2 == 1,
         e.ascAscq % 0x1_0000, if e.kind.DataTransfer? then e.drive.scsiId else 0,
         e.media.Some? && e.media.value.lastLocation > 0, if e.media.None? then 0 else e.media.value.cartType % 16,
         e.lastLocation % 0x1_0000,
         if !q.voltag then []
         else if e.status % 2 == 1 && !e.media.value.noBarcode then Blanks(e.media.value.barcode, 36)
         else Zeros(36),
         if !(m.alwaysDvcid || q.dvcid) || !e.kind.DataTransfer? then []
         else if m.serialOnly then Blanks(e.drive.serial, m.dvcidLen)
         else Blanks(e.drive.vendor, 8) + Blanks(e.drive.product, 16) + Blanks(e.drive.serial, 10))
  }

  function ShownAll(m: Manner, q: Query, es: seq<Element>): (r: seq<Seen>)
    requires Sound(es)
    ensures |r| == |es|
  {
    seq(|es|, i requires 0 <= i < |es| => Shown(m, q, es[i]))
  }

  // A field that is too short is filled with blanks, one too long is cut.
  lemma BlankFilled(src: seq<byte>, len: nat)
    ensures Blanks(src, len) == if |src| >= len then src[..len] else src + seq(len - |src|, _ => 0x20)
  {
  }

  // Types have the numbers of the standard.
  lemma PageCodes(m: Manner, q: Query, kind: ElementType, es: seq<Element>)
    requires Sound(es) && es != []
    ensures var code := PageBytes(m, q, kind, es)[0];
      && (kind.MediumTransport? ==> code == 1) && (kind.StorageElement? ==> code == 2)
      && (kind.MapElement? ==> code == 3) && (kind.DataTransfer? ==> code == 4)
  {
  }

  // Its flags: volume tags are there, and, in the source's reading, alternate
  // ones on a page of drives known by serial number alone.
  lemma PageFlags(m: Manner, q: Query, kind: ElementType, es: seq<Element>)
    requires Sound(es) && es != []
    ensures var page := PageBytes(m, q, kind, es);
      && (page[1] >= 0x80 <==> q.voltag) && page[4] == 0
      && (page[1] % 0x80 == if m.serialOnly && kind.DataTransfer? then 0x40 else 0)
  {
  }

  lemma WithAccessIs(status: byte, on: bool)
    ensures var r := WithAccess(status, on);
      && (r / 8 % 2 == 1 <==> on) && r % 2 == status % 2 && r / 2 % 2 == status / 2 % 2
  {
    var r := WithAccess(status, on);
    if r > status {
      EightMore(status);
    } else if r < status {
      EightMore(r);
    }
  }

  lemma EightMore(x: nat)
    ensures (x + 8) / 8 == x / 8 + 1 && (x + 8) / 2 == x / 2 + 4 && (x + 8) % 2 == x % 2
    ensures (x / 2 + 4) % 2 == x / 2 % 2
  {
  }

  lemma TwoBack(x: nat, d: seq<byte>, i: nat)
    requires i + 2 <= |d| && d[i..i + 2] == Be16(x)
    ensures Two(d, i) == x % 0x1_0000
  {
    assert d[i] == d[i..i + 2][0] && d[i + 1] == d[i..i + 2][1];
  }

  lemma StatusSeen(m: Manner, e: Element)
    ensures var b := FixedPart(m, e)[2];
      && b % 2 == e.status % 2 && b / 2 % 2 == e.status / 2 % 2
      && (b / 8 % 2 == 1 <==> if e.kind.MapElement? then m.capClosed else e.status / 8 % 2 == 1)
  {
    WithAccessIs(e.status, m.capClosed);
  }

  lemma WordsSeen(m: Manner, e: Element)
    ensures var f := FixedPart(m, e);
      && Two(f, 0) == e.location % 0x1_0000 && Two(f, 10) == e.lastLocation % 0x1_0000
      && Two(f, 4) == e.ascAscq % 0x1_0000
  {
    var f := FixedPart(m, e);
    assert f[0..2] == Be16(e.location) && f[10..12] == Be16(e.lastLocation) && f[4..6] == Be16(e.ascAscq);
    TwoBack(e.location, f, 0);
    TwoBack(e.lastLocation, f, 10);
    TwoBack(e.ascAscq, f, 4);
  }

  lemma SourceSeen(m: Manner, q: Query, e: Element)
    requires IsFull(e.status) ==> e.media.Some?
    ensures var f, r := FixedPart(m, e), Shown(m, q, e);
      f[7] == r.bus && (f[9] >= 128) == r.sourceValid && f[9] % 16 == r.mediumType
  {
    if e.media.Some? && e.media.value.lastLocation > 0 {
      assert (0x80 + e.media.value.cartType % 16) % 16 == e.media.value.cartType % 16;
    }
  }

  // The fields in front.
  lemma FixedSeen(m: Manner, q: Query, e: Element, d: seq<byte>)
    requires |d| >= 12 && d[..12] == FixedPart(m, e) && e.location < 0x1_0000
    requires IsFull(e.status) ==> e.media.Some?
    ensures var s, r := See(e.kind, q.voltag, d), Shown(m, q, e);
      && s.kind == r.kind && s.address == r.address && s.full == r.full && s.impExp == r.impExp
      && s.access == r.access && s.ascAscq == r.ascAscq && s.bus == r.bus && s.sourceValid == r.sourceValid
      && s.mediumType == r.mediumType && s.source == r.source
  {
    var f := FixedPart(m, e);
    assert forall i :: 0 <= i < 12 ==> At(d, i) == At(f, i) == f[i] by {
      assert forall i :: 0 <= i < 12 ==> d[i] == d[..12][i];
    }
    StatusSeen(m, e);
    WordsSeen(m, e);
    SourceSeen(m, q, e);
  }

  // What stands behind them.
  lemma TailSeen(m: Manner, q: Query, e: Element, at: nat)
    requires (IsFull(e.status) ==> e.media.Some?) && Tidy(m) && m.dvcidLen < 200 && at == if q.voltag then 48 else 12
    ensures var d := FillDescriptor(m, q, e);
      && d[..12] == FixedPart(m, e) && (q.voltag ==> Field(d, 12, 36) == VolumeTag(q, e))
      && Field(d, at + 4, At(d, at + 3)) == Shown(m, q, e).identifier
  {
    IdentifierSeen(m, q, e);
    TagSeen(FixedPart(m, e), VolumeTag(q, e), IdentifierPart(m, q, e), at);
  }

  lemma TagShown(m: Manner, q: Query, e: Element)
    requires IsFull(e.status) ==> e.media.Some?
    ensures VolumeTag(q, e) == Shown(m, q, e).tag
  {
  }

  lemma DescriptorSeen(m: Manner, q: Query, e: Element)
    requires (IsFull(e.status) ==> e.media.Some?) && e.location < 0x1_0000 && Tidy(m) && m.dvcidLen < 200
    ensures See(e.kind, q.voltag, FillDescriptor(m, q, e)) == Shown(m, q, e)
  {
    TailSeen(m, q, e, if q.voltag then 48 else 12);
    FixedSeen(m, q, e, FillDescriptor(m, q, e));
    TagShown(m, q, e);
  }

  // Reserved bytes are zero, and an identifier is ASCII, of a type that says
  // whether it is a serial number alone.
  lemma HeadsAndReserved(m: Manner, q: Query, e: Element, at: nat)
    requires (IsFull(e.status) ==> e.media.Some?) && at == if q.voltag then 48 else 12
    ensures var d := FillDescriptor(m, q, e);
      var identified := (m.alwaysDvcid || q.dvcid) && e.kind.DataTransfer?;
      && At(d, 3) == At(d, 6) == At(d, 8) == At(d, at + 2) == 0
      && At(d, at) == (if identified then 2 else 0)
      && At(d, at + 1) == (if identified && !m.serialOnly then 1 else 0)
  {
    var d := FillDescriptor(m, q, e);
    var rest := IdentifierPart(m, q, e);
    assert d[..12] == FixedPart(m, e) && d[at..] == rest;
    assert d[3] == d[..12][3] && d[6] == d[..12][6] && d[8] == d[..12][8];
    assert d[at] == rest[0] && d[at + 1] == rest[1] && d[at + 2] == rest[2];
  }

  lemma TagSeen(front: seq<byte>, tag: seq<byte>, rest: seq<byte>, at: nat)
    requires |front| == 12 && at == 12 + |tag| && |rest| >= 4 && |rest| == 4 + At(rest, 3)
    ensures var d := front + tag + rest;
      && d[..12] == front && Field(d, 12, |tag|) == tag
      && At(d, at + 3) == At(rest, 3) && Field(d, at + 4, At(rest, 3)) == rest[4..]
  {
    var d := front + tag + rest;
    assert d[12..12 + |tag|] == tag;
    assert d[at..] == rest;
    assert d[at + 3] == d[at..][3];
    assert d[at + 4..at + 4 + At(rest, 3)] == rest[4..];
  }

  // The identifier has the length it says.
  lemma IdentifierSeen(m: Manner, q: Query, e: Element)
    requires Tidy(m) && m.dvcidLen < 200 && (IsFull(e.status) ==> e.media.Some?)
    ensures var rest := IdentifierPart(m, q, e);
      |rest| >= 4 && |rest| == 4 + At(rest, 3) && rest[4..] == Shown(m, q, e).identifier
  {
    if WantsDvcid(m, q) && e.kind.DataTransfer? {
      assert IdentifierPart(m, q, e)[4..] == Identifier(m, e.drive);
    }
  }

  // ------------------------------------------------------- page after page

  lemma SeeNext(kind: ElementType, tagged: bool, size: nat, a: seq<byte>, b: seq<byte>)
    requires 0 < size == |a|
    ensures SeeAll(kind, tagged, size, a + b) == [See(kind, tagged, a)] + SeeAll(kind, tagged, size, b)
  {
    assert (a + b)[..size] == a && (a + b)[size..] == b;
  }

  lemma DescriptorsFirst(m: Manner, q: Query, es: seq<Element>)
    requires Sound(es) && es != []
    ensures Sound(es[1..])
    ensures Descriptors(m, q, es) == FillDescriptor(m, q, es[0]) + Descriptors(m, q, es[1..])
  {
    var n := |es| - 1;
    if n == 0 {
      assert Descriptors(m, q, es[..0]) == [] && es[1..] == [];
    } else {
      DescriptorsFirst(m, q, es[..n]);
      assert es[..n][1..] == es[1..][..n - 1];
      assert Descriptors(m, q, es[1..]) == Descriptors(m, q, es[1..][..n - 1]) + FillDescriptor(m, q, es[n]);
      Regroup(FillDescriptor(m, q, es[0]), Descriptors(m, q, es[..n][1..]), FillDescriptor(m, q, es[n]));
    }
  }

  lemma ShownFirst(m: Manner, q: Query, es: seq<Element>)
    requires Sound(es) && es != [] && Sound(es[1..])
    ensures ShownAll(m, q, es) == [Shown(m, q, es[0])] + ShownAll(m, q, es[1..])
  {
  }

  lemma ShownBoth(m: Manner, q: Query, a: seq<Element>, b: seq<Element>)
    requires Sound(a) && Sound(b)
    ensures Sound(a + b) && ShownAll(m, q, a + b) == ShownAll(m, q, a) + ShownAll(m, q, b)
  {
  }

  lemma {:induction false} DescriptorsSeen(m: Manner, q: Query, kind: ElementType, es: seq<Element>)
    requires Sound(es) && Tidy(m) && m.dvcidLen < 200 && forall i :: 0 <= i < |es| ==> es[i].kind == kind
    ensures SeeAll(kind, q.voltag, SizeOfElement(m, q, kind), Descriptors(m, q, es)) == ShownAll(m, q, es)
  {
    if es != [] {
      DescriptorsFirst(m, q, es);
      DescriptorSize(m, q, es[0]);
      DescriptorSeen(m, q, es[0]);
      SeeNext(kind, q.voltag, SizeOfElement(m, q, kind), FillDescriptor(m, q, es[0]), Descriptors(m, q, es[1..]));
      DescriptorsSeen(m, q, kind, es[1..]);
      ShownFirst(m, q, es);
    }
  }

  // A page in front of others.
  lemma PageSeen(m: Manner, q: Query, kind: ElementType, es: seq<Element>, rest: seq<byte>)
    requires Sound(es) && Tidy(m) && m.dvcidLen < 200 && !kind.Nothing? && |es| < 0x1_0000
    requires forall i :: 0 <= i < |es| ==> es[i].kind == kind
    ensures SeePages(PageBytes(m, q, kind, es) + rest) == ShownAll(m, q, es) + SeePages(rest)
  {
    var page := PageBytes(m, q, kind, es);
    if es == [] {
      assert page + rest == rest && ShownAll(m, q, es) + SeePages(rest) == SeePages(rest);
    } else {
      var d, n, size := page + rest, |page| - 8, SizeOfElement(m, q, kind);
      PageAnnounces(m, q, kind, es);
      PageCodes(m, q, kind, es);
      BigEndian(size, 0);
      DescriptorsSeen(m, q, kind, es);
      assert page[2..4] == Be16(size);
      assert d[5..8] == page[5..8] && d[2..4] == page[2..4] && d[0] == page[0] && d[1] == page[1];
      assert d[8..8 + n] == Descriptors(m, q, es) && d[8 + n..] == rest;
    }
  }

  lemma {:induction false} PagesSeen(m: Manner, q: Query, types: seq<TypeSlot>, lists: seq<seq<Element>>,
                                     i: nat, room: nat)
    requires AllSound(lists) && OfTheirKinds(types, lists) && i <= |types| && room < 0x1_0000
    requires Tidy(m) && m.dvcidLen < 200 && forall j :: 0 <= j < |types| ==> !types[j].kind.Nothing?
    ensures Sound(Reported(lists, i, room))
    ensures SeePages(ReportBytes(m, q, types, lists, i, room)) == ShownAll(m, q, Reported(lists, i, room))
    decreases |types| - i
  {
    if i < |types| {
      var page := Front(lists[i], room);
      var more := Reported(lists, i + 1, room - |page|);
      PagesSeen(m, q, types, lists, i + 1, room - |page|);
      PageSeen(m, q, types[i].kind, page, ReportBytes(m, q, types, lists, i + 1, room - |page|));
      ShownBoth(m, q, page, more);
    }
  }

  // Elements are chosen one by one, in the order of the list.
  lemma ChosenOne(e: Element, kind: ElementType, start: nat)
    ensures Matching([e], kind, start) == if (kind.Nothing? || e.kind == kind) && e.location >= start then [e] else []
  {
    assert [e][..0] == [];
  }

  lemma {:induction false} ChosenInOrder(a: seq<Element>, b: seq<Element>, kind: ElementType, start: nat)
    ensures Matching(a + b, kind, start) == Matching(a, kind, start) + Matching(b, kind, start)
  {
    if b == [] {
      assert a + b == a;
    } else {
      var n, last := |b| - 1, b[|b| - 1];
      assert (a + b)[..|a + b| - 1] == a + b[..n] && (a + b)[|a + b| - 1] == last;
      ChosenInOrder(a, b[..n], kind, start);
      Regroup(Matching(a, kind, start), Matching(b[..n], kind, start), [last]);
    }
  }

  // Of one type the first are listed, as many as were asked for; zero asks for
  // as many as 16 bits count.
  lemma FirstAreListed(es: seq<Element>, q: Query, types: seq<TypeSlot>, start: nat)
    requires Sound(es) && start > 0 && !q.kind.Nothing?
    ensures var all := Matching(es, q.kind, start); var most := if q.number == 0 then 65535 else q.number;
      Listed(es, q, types, start) == if |all| <= most then all else all[..most]
  {
    AboveZero(es, q.kind, start);
  }

  // Reading the reply back gives the elements listed, in order, each with its
  // type, its address and all there is to see of it.
  lemma ReplySeen(es: seq<Element>, m: Manner, q: Query, types: seq<TypeSlot>, start: nat)
    requires Sound(es) && Tidy(m) && m.dvcidLen < 200 && q.number < 0x1_0000
    requires q.kind.Nothing? ==> InOrder(m.layout, types)
    ensures Sound(Listed(es, q, types, start))
    ensures SeeReply(ReplyData(es, m, q, types, start)) == ShownAll(m, q, Listed(es, q, types, start))
  {
    var data, body := ReplyData(es, m, q, types, start), Body(es, m, q, types, start);
    assert data[8..] == body;
    if q.kind.Nothing? {
      var lists: seq<seq<Element>> := Lists(es, types, start);
      forall i, j | 0 <= i < 4 && 0 <= j < |lists[i]|
        ensures lists[i][j].kind == types[i].kind
      {
        MatchingIsSound(es, types[i].kind, start);
      }
      PagesSeen(m, q, types, lists, 0, Limit(q));
    } else {
      var page := PageElements(es, q.kind, start, Limit(q));
      PageSeen(m, q, q.kind, page, []);
      assert body + [] == body && ShownAll(m, q, page) + SeePages([]) == ShownAll(m, q, page);
    }
  }
}
