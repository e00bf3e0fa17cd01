// What READ ELEMENT STATUS says of the library that MOVE MEDIUM works on.

module Inventory {
  import opened Basics
  import opened Files
  import opened Library
  import opened ElementStatus
  import opened ElementReader

  // What is known of drives, cartridges and places beside where things are.
  datatype Facts = Facts(
    drives: nat -> DriveInfo, tag: string -> seq<byte>, cartType: string -> nat, noBarcode: string -> bool,
    enabled: nat -> nat, ascAscq: nat -> nat)

  // The status byte: Full, Import/Export and Access, and the bits of a place
  // that never change.
  function StatusByte(full: bool, impExp: bool, access: bool, enabled: nat): (r: byte)
    ensures IsFull(r) == full
  {
    (if full then 1 else 0) + (if impExp then 2 else 0) + (if access then 8 else 0) + 16 * (enabled % 4)
  }

  function LabelOf(f: Facts, m: Media): Label
    reads m
  {
    Label(f.tag(m.barcode), f.cartType(m.barcode), m.lastLocation, f.noBarcode(m.barcode))
  }

  function ElementOf(f: Facts, s: Slot): Element
    reads s, s.media
  {
    Element(s.location, s.kind, StatusByte(s.full, s.impExp, s.access, f.enabled(s.location)),
            f.ascAscq(s.location), s.lastLocation,
            if s.media == null then None else Some(LabelOf(f, s.media)), f.drives(s.location))
  }

  function ElementsOf(f: Facts, lib: Library): (r: seq<Element>)
    requires lib.Valid()
    reads lib, lib.slots, set m: Media | m in lib.held
    ensures |r| == |lib.slots|
  {
    seq(|lib.slots|, i requires 0 <= i < |lib.slots| && lib.Valid()
                       reads lib, lib.slots, set m: Media | m in lib.held => ElementOf(f, lib.slots[i]))
  }

  // Every address is one of the library's 16 bit ones.
  predicate Addressed(lib: Library) {
    Separate(lib.layout) && forall i :: 0 <= i < |lib.slots| ==>
      lib.slots[i].location < 0x1_0000 && !lib.slots[i].kind.Nothing?
  }

  lemma ElementsAreSound(f: Facts, lib: Library)
    requires lib.Valid() && Addressed(lib)
    ensures Sound(ElementsOf(f, lib)) && WellLaid(ElementsOf(f, lib), lib.layout)
  {
  }

  // The volume tag of a place that holds a cartridge, or none.
  function TagOf(f: Facts, held: Media?): seq<byte> {
    if held == null || f.noBarcode(held.barcode) then Zeros(VOLTAG_LEN) else Blanks(f.tag(held.barcode), VOLTAG_LEN)
  }

  // A descriptor is of the address, says Full exactly where a cartridge is, and
  // its volume tag is that cartridge's, or zeros where there is none.
  ghost predicate Tells(d: seq<byte>, location: nat, f: Facts, q: Query, held: Media?) {
    && |d| >= 12 && d[..2] == Be16(location) && (IsFull(d[2]) <==> held != null)
    && (q.voltag ==> |d| >= 48 && d[12..48] == TagOf(f, held))
  }

  lemma DescriptorTells(f: Facts, lib: Library, m: Manner, q: Query, i: nat)
    requires lib.Valid() && i < |lib.slots|
    ensures ElementOf(f, lib.slots[i]).media.Some? <== lib.slots[i].full
    ensures Tells(FillDescriptor(m, q, ElementOf(f, lib.slots[i])), lib.slots[i].location, f, q, lib.held[i])
  {
    var e := ElementOf(f, lib.slots[i]);
    var d := FillDescriptor(m, q, e);
    assert d[..12] == FixedPart(m, e);
    assert d[2] == FixedPart(m, e)[2] && d[..2] == FixedPart(m, e)[..2];
    if q.voltag {
      assert d[12..48] == VolumeTag(q, e);
    }
  }

  ghost predicate ElementsTell(f: Facts, lib: Library, m: Manner, q: Query)
    requires lib.Valid() && Sound(ElementsOf(f, lib))
    reads lib, lib.slots, set m: Media | m in lib.held
  {
    forall i :: 0 <= i < |lib.slots| ==>
      Tells(FillDescriptor(m, q, ElementsOf(f, lib)[i]), lib.slots[i].location, f, q, lib.held[i])
  }

  lemma AllTell(f: Facts, lib: Library, m: Manner, q: Query)
    requires lib.Valid() && Sound(ElementsOf(f, lib))
    ensures ElementsTell(f, lib, m, q)
  {
    forall i | 0 <= i < |lib.slots|
      ensures Tells(FillDescriptor(m, q, ElementsOf(f, lib)[i]), lib.slots[i].location, f, q, lib.held[i])
    {
      DescriptorTells(f, lib, m, q, i);
    }
  }

  // Some element matches, and the first is not at address 0.
  ghost predicate Found(f: Facts, lib: Library, q: Query)
    requires lib.Valid()
    reads lib, lib.slots, set m: Media | m in lib.held
  {
    var first := Matching(ElementsOf(f, lib), q.kind, q.start);
    first != [] && first[0].location > 0
  }

  // The reply is that of the elements, cut to the allocation length.
  ghost predicate IsReport(f: Facts, lib: Library, m: Manner, q: Query, types: seq<TypeSlot>, data: seq<byte>)
    requires lib.Valid() && Sound(ElementsOf(f, lib)) && Found(f, lib, q)
    reads lib, lib.slots, set m: Media | m in lib.held
  {
    var es := ElementsOf(f, lib);
    && (q.kind.Nothing? ==> InOrder(m.layout, types))
    && data == ReplyData(es, m, q, types, Matching(es, q.kind, q.start)[0].location)
  }

  // What an initiator sees of an element is what the library has there.
  lemma SlotShown(f: Facts, lib: Library, m: Manner, q: Query, i: nat)
    requires lib.Valid() && i < |lib.slots| && lib.slots[i].location < 0x1_0000
    ensures var s, held := lib.slots[i], lib.held[i];
      var r := Shown(m, q, ElementOf(f, s));
      && r.kind == s.kind && r.address == s.location && (r.full <==> held != null)
      && r.impExp == s.impExp && r.access == (if s.kind.MapElement? then m.capClosed else s.access)
      && (r.sourceValid <==> held != null && held.lastLocation > 0) && r.source == s.lastLocation % 0x1_0000
      && (q.voltag ==> r.tag == TagOf(f, held))
  {
    StatusBits(lib.slots[i].full, lib.slots[i].impExp, lib.slots[i].access, f.enabled(lib.slots[i].location));
  }

  lemma StatusBits(full: bool, impExp: bool, access: bool, enabled: nat)
    ensures var b := StatusByte(full, impExp, access, enabled);
      (b % 2 == 1 <==> full) && (b / 2 % 2 == 1 <==> impExp) && (b / 8 % 2 == 1 <==> access)
  {
  }

  // An initiator that reads a report back sees so the elements listed, in order.
  lemma ReportSeen(f: Facts, lib: Library, m: Manner, q: Query, types: seq<TypeSlot>, data: seq<byte>)
    requires lib.Valid() && Sound(ElementsOf(f, lib)) && Tidy(m) && m.dvcidLen < 200 && q.number < 0x1_0000
    requires Found(f, lib, q) && IsReport(f, lib, m, q, types, data)
    ensures var es := ElementsOf(f, lib);
      var listed := Listed(es, q, types, Matching(es, q.kind, q.start)[0].location);
      Sound(listed) && SeeReply(data) == ShownAll(m, q, listed)
  {
    var es := ElementsOf(f, lib);
    ReplySeen(es, m, q, types, Matching(es, q.kind, q.start)[0].location);
  }

  // Every descriptor of the report tells what its element holds.
  method Report(lib: Library, f: Facts, m: Manner, q: Query)
    returns (ok: bool, data: seq<byte>, sz: nat, ghost types: seq<TypeSlot>)
    requires lib.Valid() && Addressed(lib) && m.layout == lib.layout && Tidy(m) && q.number < 0x1_0000
    ensures Sound(ElementsOf(f, lib)) && ElementsTell(f, lib, m, q)
    ensures ok <==> Found(f, lib, q)
    ensures ok ==> IsReport(f, lib, m, q, types, data)
    ensures ok ==> sz == Least(|data|, q.allocation)
  {
    ElementsAreSound(f, lib);
    AllTell(f, lib, m, q);
    var es := ElementsOf(f, lib);
    ok, data, sz, types := ReadElementStatus(es, m, q);
  }

  // After any run of moves and ejects it is the report of the elements as they
  // are then, with the cartridges there were.
  method ReportAfter(lib: Library, requests: seq<Request>, answers: seq<Replies>, f: Facts, m: Manner, q: Query)
    returns (ok: bool, data: seq<byte>, sz: nat, ghost types: seq<TypeSlot>)
    requires lib.Valid() && Addressed(lib) && |requests| == |answers|
    requires m.layout == lib.layout && Tidy(m) && q.number < 0x1_0000
    modifies lib`held, lib.slots, set m: Media | m in lib.held
    ensures lib.Valid() && multiset(lib.held) == multiset(old(lib.held))
    ensures Sound(ElementsOf(f, lib)) && ElementsTell(f, lib, m, q)
    ensures ok <==> Found(f, lib, q)
    ensures ok ==> IsReport(f, lib, m, q, types, data)
    ensures ok ==> sz == Least(|data|, q.allocation)
  {
    var _, _ := lib.MoveAll(requests, answers);
    ok, data, sz, types := Report(lib, f, m, q);
  }
}
