// The media changer: cartridges in storage slots, mail slots and drives, and
// the MOVE MEDIUM command, which can fail half way and put things back.

module Library {

  datatype ElementType = Nothing | MediumTransport | StorageElement | MapElement | DataTransfer

  // The address ranges of the library.
  datatype Layout = Layout(
    startDrive: nat, numDrives: nat, startPicker: nat, numPicker: nat,
    startMap: nat, numMap: nat, startStorage: nat, numStorage: nat)
  {
    function SlotType(addr: nat): ElementType {
      if startDrive <= addr < startDrive + numDrives then DataTransfer
      else if startPicker <= addr < startPicker + numPicker then MediumTransport
      else if startMap <= addr < startMap + numMap then MapElement
      else if startStorage <= addr < startStorage + numStorage then StorageElement
      else Nothing
    }
  }

  // The type of an address, where ranges do not overlap: the range it is in.
  lemma TypeByRange(l: Layout, addr: nat)
    ensures var drive := l.startDrive <= addr < l.startDrive + l.numDrives;
      var picker := l.startPicker <= addr < l.startPicker + l.numPicker;
      var port := l.startMap <= addr < l.startMap + l.numMap;
      var storage := l.startStorage <= addr < l.startStorage + l.numStorage;
      && (drive && !picker && !port && !storage ==> l.SlotType(addr) == DataTransfer)
      && (picker && !drive && !port && !storage ==> l.SlotType(addr) == MediumTransport)
      && (port && !drive && !picker && !storage ==> l.SlotType(addr) == MapElement)
      && (storage && !drive && !picker && !port ==> l.SlotType(addr) == StorageElement)
      && (!drive && !picker && !port && !storage ==> l.SlotType(addr) == Nothing)
  {
  }

  class Media {
    const barcode: string
    var lastLocation: nat

    constructor (barcode: string)
      ensures this.barcode == barcode && lastLocation == 0
    {
      this.barcode, lastLocation := barcode, 0;
    }
  }

  // An element, with the drive in it if it has one. `loaded` is the drive's own
  // state, which the changer does not see: its daemon has the cartridge open.
  class Slot {
    const location: nat
    const kind: ElementType
    const driveId: nat
    var media: Media?
    var lastLocation: nat
    var full: bool
    var access: bool
    var impExp: bool
    var loaded: bool

    constructor (location: nat, kind: ElementType, driveId: nat)
      ensures this.location == location && this.kind == kind && this.driveId == driveId
      ensures media == null && !full && access && !impExp && !loaded && lastLocation == 0
    {
      this.location, this.kind, this.driveId := location, kind, driveId;
      media, lastLocation, full, access, impExp, loaded := null, 0, false, true, false, false;
    }

    // Every field is as it was.
    twostate predicate Same()
      reads this
    {
      && media == old(media) && lastLocation == old(lastLocation) && full == old(full)
      && access == old(access) && impExp == old(impExp) && loaded == old(loaded)
    }
  }

  // What the outside answers during one command: the external script, the
  // drives asked for their mount state, and the drives told to unload and load.
  // The last two answers are never looked at: the source drive's when it is
  // told that it is empty, and when it is told to load again after a failure.
  datatype Replies = Replies(
    script: bool, srcSaysEmpty: bool, destSaysEmpty: bool, unloaded: bool, loaded: bool,
    emptied: bool, reloaded: bool)

  datatype Outcome =
    | Good
    | InvalidField
    | InvalidElement
    | SourceEmpty
    | DestinationFull
    | MailSlotOpen
    | ScriptFailed
    | UnloadFailed
    | LoadFailed

  // What each element holds, in list order.
  type Inventory = seq<Media?>

  // A cartridge moves from one place to an empty one.
  function Shift(held: Inventory, s: nat, d: nat): (r: Inventory)
    requires s < |held| && d < |held| && s != d
    ensures |r| == |held|
  {
    held[d := held[s]][s := null]
  }

  // No cartridge is in two places.
  ghost predicate NoTwice(held: Inventory) {
    forall i, j :: 0 <= i < j < |held| && held[i] != null ==> held[i] != held[j]
  }

  lemma MultisetUpdate<T>(s: seq<T>, i: nat, x: T)
    requires i < |s|
    ensures multiset(s[i := x]) == multiset(s) - multiset{s[i]} + multiset{x}
  {
    assert s == s[..i] + [s[i]] + s[i + 1..];
    assert s[i := x] == s[..i] + [x] + s[i + 1..];
  }

  // Every cartridge, and every empty place, is still there; none is in two places.
  lemma ShiftConserves(held: Inventory, s: nat, d: nat)
    requires s < |held| && d < |held| && s != d && held[d] == null && NoTwice(held)
    ensures multiset(Shift(held, s, d)) == multiset(held)
    ensures NoTwice(Shift(held, s, d))
  {
    MultisetUpdate(held, d, held[s]);
    MultisetUpdate(held[d := held[s]], s, null);
  }

  // Putting it back undoes the move.
  lemma ShiftBack(held: Inventory, s: nat, d: nat)
    requires s < |held| && d < |held| && s != d && held[d] == null
    ensures Shift(Shift(held, s, d), d, s) == held
  {
  }

  class Library {
    const slots: seq<Slot>
    const layout: Layout
    var capClosed: bool
    ghost var held: Inventory

    constructor (slots: seq<Slot>, layout: Layout, capClosed: bool)
      requires forall i, j :: 0 <= i < j < |slots| ==> slots[i].location != slots[j].location
      requires forall i :: 0 <= i < |slots| ==> slots[i].kind == layout.SlotType(slots[i].location)
      requires forall i :: 0 <= i < |slots| ==> (slots[i].full <==> slots[i].media != null)
      requires forall i, j :: 0 <= i < j < |slots| && slots[i].media != null ==> slots[i].media != slots[j].media
      ensures Valid() && this.slots == slots && this.layout == layout && this.capClosed == capClosed
    {
      this.slots, this.layout, this.capClosed := slots, layout, capClosed;
      held := seq(|slots|, i requires 0 <= i < |slots| reads slots => slots[i].media);
    }

    ghost predicate Shape()
      reads this
    {
      && |held| == |slots|
      && (forall i, j :: 0 <= i < j < |slots| ==> slots[i].location != slots[j].location)
      && (forall i :: 0 <= i < |slots| ==> slots[i].kind == layout.SlotType(slots[i].location))
    }

    // The Full bit is set exactly where a cartridge is, and no cartridge is in two places.
    ghost predicate Valid()
      reads this, slots
    {
      && Shape() && NoTwice(held)
      && (forall i :: 0 <= i < |slots| ==> slots[i].media == held[i])
      && (forall i :: 0 <= i < |slots| ==> (slots[i].full <==> held[i] != null))
    }

    // Only drives have cartridges loaded, and none that the picker may take as it is.
    ghost predicate Tame()
      reads this, slots
    {
      forall i :: 0 <= i < |slots| && slots[i].loaded ==>
        slots[i].kind.DataTransfer? && slots[i].full && !slots[i].access
    }

    // slot2struct: the place in the list of the element at an address.
    method Find(addr: nat) returns (i: nat)
      ensures i <= |slots|
      ensures i < |slots| ==> slots[i].location == addr
      ensures i == |slots| ==> forall j :: 0 <= j < |slots| ==> slots[j].location != addr
    {
      i := 0;
      while i < |slots| && slots[i].location != addr
        invariant i <= |slots|
        invariant forall j :: 0 <= j < i ==> slots[j].location != addr
      {
        i := i + 1;
      }
    }

    // valid_slot: a storage or mail slot, or an element with a drive in it.
    ghost predicate Movable(i: nat)
    {
      i < |slots| &&
      (slots[i].kind.StorageElement? || slots[i].kind.MapElement? ||
       (slots[i].kind.DataTransfer? && slots[i].driveId != 0))
    }

    method ValidSlot(addr: nat) returns (i: nat, ok: bool)
      requires Shape()
      ensures ok <==> exists j :: 0 <= j < |slots| && slots[j].location == addr && Movable(j)
      ensures ok ==> i < |slots| && slots[i].location == addr && Movable(i)
    {
      i := Find(addr);
      ok := false;
      if i < |slots| {
        match layout.SlotType(addr) {
          case StorageElement => ok := true;
          case MapElement => ok := true;
          case DataTransfer => ok := slots[i].driveId != 0;
          case _ =>
        }
      }
    }

    // move_cart
    method MoveCart(s: nat, d: nat)
      requires Valid() && s < |slots| && d < |slots| && s != d && held[s] != null && held[d] == null
      modifies this`held, slots[s], slots[d], held[s]
      ensures Valid() && held == Shift(old(held), s, d)
      ensures slots[d].lastLocation == slots[s].location && old(held[s]).lastLocation == slots[s].location
      ensures slots[s].lastLocation == 0 && slots[s].access
      ensures slots[d].access == old(slots[d].access)
      ensures slots[s].loaded == old(slots[s].loaded) && slots[d].loaded == old(slots[d].loaded)
      ensures slots[s].impExp == old(slots[s].impExp)
      ensures slots[d].impExp == if slots[d].kind.MapElement? then false else old(slots[d].impExp)
    {
      var src, dest := slots[s], slots[d];
      ShiftConserves(held, s, d);
      dest.media := src.media;
      dest.lastLocation := src.location;
      dest.media.lastLocation := src.location;
      dest.full := true;
      if dest.kind.MapElement? {
        dest.impExp := false;
      }
      src.media := null;
      src.lastLocation := 0;
      src.full := false;
      src.access := true;
      held := Shift(held, s, d);
    }

    // map_access_ok: only a mail slot with the port open refuses.
    function PortOk(i: nat): bool
      requires i < |slots|
      reads this
    {
      slots[i].kind.MapElement? ==> capClosed
    }

    // The first thing in the way of a move, in the order of the checks.
    ghost function Verdict(s: nat, d: nat, r: Replies): Outcome
      requires s < |slots| && d < |slots|
      reads this, slots
    {
      var fromDrive, toDrive := slots[s].kind.DataTransfer?, slots[d].kind.DataTransfer?;
      if s == d && fromDrive then Good
      else if !slots[s].full && !(fromDrive && !r.srcSaysEmpty) then SourceEmpty
      else if slots[d].full || (toDrive && !r.destSaysEmpty) then DestinationFull
      else if !PortOk(s) || !PortOk(d) then MailSlotOpen
      else if !r.script then ScriptFailed
      else if fromDrive && (toDrive || !slots[s].access) && !r.unloaded then UnloadFailed
      else if toDrive && !r.loaded then LoadFailed
      else Good
    }

    // What is in the way of a move, by where cartridges are: something to move
    // and room for it, mail slots reached through a closed port, the script, and
    // the drives. Each refusal says that all before it was in order.
    lemma VerdictReasons(s: nat, d: nat, r: Replies)
      requires Valid() && s < |slots| && d < |slots|
      ensures var v := Verdict(s, d, r);
        var fromDrive, toDrive := slots[s].kind.DataTransfer?, slots[d].kind.DataTransfer?;
        var there := held[s] != null || (fromDrive && !r.srcSaysEmpty);
        var free := held[d] == null && (toDrive ==> r.destSaysEmpty);
        var open := !capClosed && (slots[s].kind.MapElement? || slots[d].kind.MapElement?);
        var leaves := fromDrive && (toDrive || !slots[s].access) ==> r.unloaded;
        var itself := s == d && fromDrive;
        && (v == Good <==> itself || (there && free && !open && r.script && leaves && (toDrive ==> r.loaded)))
        && (v == SourceEmpty <==> !itself && !there)
        && (v == DestinationFull <==> !itself && there && !free)
        && (v == MailSlotOpen <==> !itself && there && free && open)
        && (v == ScriptFailed <==> !itself && there && free && !open && !r.script)
        && (v == UnloadFailed <==> !itself && there && free && !open && r.script && !leaves)
        && (v == LoadFailed <==> !itself && there && free && !open && r.script && leaves && toDrive && !r.loaded)
    {
    }

    // What else has changed after a move.
    ghost predicate Arrived(s: nat, d: nat)
      requires s < |slots| && d < |slots| && |held| == |slots|
      reads this, slots, set m: Media | m in held
    {
      && slots[d].lastLocation == slots[s].location && slots[s].lastLocation == 0
      && slots[s].access && (slots[d].kind.DataTransfer? ==> !slots[d].access)
      && (slots[d].kind.MapElement? ==> !slots[d].impExp)
      && held[d] != null && held[d].lastLocation == slots[s].location
    }

    method MoveSlotToDrive(s: nat, d: nat, r: Replies) returns (o: Outcome)
      requires Valid() && s < |slots| && d < |slots| && s != d
      requires !slots[s].kind.DataTransfer? && slots[d].kind.DataTransfer?
      modifies this`held, slots, set m: Media | m in held
      ensures Valid() && capClosed == old(capClosed)
      ensures o == old(Verdict(s, d, r))
      ensures held == if o.Good? then Shift(old(held), s, d) else old(held)
      ensures o.Good? && s != d ==> Arrived(s, d)
      ensures forall i :: 0 <= i < |slots| && ((i != s && i != d) || !o.Good?) ==> unchanged(slots[i])
      ensures o.Good? ==> slots[d].loaded && slots[s].loaded == old(slots[s].loaded)
      ensures old(Tame()) ==> Tame()
    {
      var src, dest := slots[s], slots[d];
      if !src.full {
        o := SourceEmpty;
      } else if dest.full || !r.destSaysEmpty {
        o := DestinationFull;
      } else if src.kind.MapElement? && !capClosed {
        o := MailSlotOpen;
      } else if !r.script {
        o := ScriptFailed;
      } else if !r.loaded {
        o := LoadFailed;
      } else {
        MoveCart(s, d);
        dest.loaded := true;
        dest.full := true;
        dest.access := false;
        o := Good;
      }
    }

    method MoveSlotToSlot(s: nat, d: nat, r: Replies) returns (o: Outcome)
      requires Valid() && s < |slots| && d < |slots|
      requires !slots[s].kind.DataTransfer? && !slots[d].kind.DataTransfer?
      modifies this`held, slots, set m: Media | m in held
      ensures Valid() && capClosed == old(capClosed)
      ensures o == old(Verdict(s, d, r))
      ensures held == if o.Good? && s != d then Shift(old(held), s, d) else old(held)
      ensures o.Good? && s != d ==> Arrived(s, d)
      ensures forall i :: 0 <= i < |slots| && ((i != s && i != d) || !o.Good?) ==> unchanged(slots[i])
      ensures old(Tame()) ==> Tame()
    {
      var src, dest := slots[s], slots[d];
      if !src.full {
        o := SourceEmpty;
      } else if dest.full {
        o := DestinationFull;
      } else if src.kind.MapElement? && !capClosed {
        o := MailSlotOpen;
      } else if dest.kind.MapElement? && !capClosed {
        o := MailSlotOpen;
      } else if !r.script {
        o := ScriptFailed;
      } else {
        MoveCart(s, d);
        o := Good;
      }
    }

    // The source drive answers for itself only when its element is empty. The
    // drive is told to unload only when the picker has no access to it, so the
    // cartridge leaves a drive that still has it loaded, `early`, exactly when
    // the picker has; the drive is told afterwards that it is empty.
    method MoveDriveToSlot(s: nat, d: nat, r: Replies) returns (o: Outcome, early: bool)
      requires Valid() && s < |slots| && d < |slots| && s != d
      requires slots[s].kind.DataTransfer? && !slots[d].kind.DataTransfer?
      requires !slots[s].full ==> r.srcSaysEmpty
      modifies this`held, slots, set m: Media | m in held
      ensures Valid() && capClosed == old(capClosed)
      ensures o == old(Verdict(s, d, r))
      ensures held == if o.Good? then Shift(old(held), s, d) else old(held)
      ensures o.Good? && s != d ==> Arrived(s, d)
      ensures forall i :: 0 <= i < |slots| && ((i != s && i != d) || !o.Good?) ==> unchanged(slots[i])
      ensures early <==> o.Good? && old(slots[s].access && slots[s].loaded)
      ensures o.Good? ==> slots[s].loaded == (early && !r.emptied)
      ensures old(Tame()) ==> Tame() && !early
    {
      var src, dest := slots[s], slots[d];
      early := false;
      if !(src.full || !r.srcSaysEmpty) {
        o := SourceEmpty;
      } else if dest.full {
        o := DestinationFull;
      } else if dest.kind.MapElement? && !capClosed {
        o := MailSlotOpen;
      } else if !r.script {
        o := ScriptFailed;
      } else if !src.access && !r.unloaded {
        o := UnloadFailed;
      } else {
        if !src.access {
          src.loaded := false;
        }
        early := src.loaded;
        MoveCart(s, d);
        src.full := false;
        if r.emptied {
          src.loaded := false;
        }
        o := Good;
      }
    }

    // Everything a failed move between drives writes has the value it writes.
    ghost predicate Untraced(s: nat, d: nat, reloaded: bool)
      requires s < |slots| && d < |slots| && |held| == |slots| && held[s] != null
      reads this, slots, held[s]
    {
      && slots[s].lastLocation == slots[d].location && slots[d].lastLocation == 0
      && held[s].lastLocation == slots[d].location
      && slots[s].access && slots[d].access && slots[s].loaded == reloaded
    }

    // A drive that does not load gives the cartridge back to where it came from,
    // and the source drive is told to load it again. The picker keeps its access.
    method HandOver(s: nat, d: nat, r: Replies) returns (o: Outcome)
      requires Valid() && s < |slots| && d < |slots| && s != d && held[s] != null && held[d] == null
      requires slots[s].kind.DataTransfer? && slots[d].kind.DataTransfer?
      modifies this`held, slots[s], slots[d], held[s]
      ensures Valid() && o == if r.loaded then Good else LoadFailed
      ensures held == if r.loaded then Shift(old(held), s, d) else old(held)
      ensures r.loaded ==> Arrived(s, d) && !slots[s].loaded && slots[d].loaded
      ensures !r.loaded ==> Untraced(s, d, r.reloaded) && slots[d].loaded == old(slots[d].loaded)
      ensures slots[s].impExp == old(slots[s].impExp) && slots[d].impExp == old(slots[d].impExp)
    {
      var src, dest := slots[s], slots[d];
      ghost var before := held;
      src.loaded := false;
      MoveCart(s, d);
      src.full := false;
      if !r.loaded {
        ShiftBack(before, s, d);
        MoveCart(d, s);
        src.loaded := r.reloaded;
        o := LoadFailed;
      } else {
        dest.loaded := true;
        dest.access := false;
        o := Good;
      }
    }

    method MoveDriveToDrive(s: nat, d: nat, r: Replies) returns (o: Outcome)
      requires Valid() && s < |slots| && d < |slots|
      requires slots[s].kind.DataTransfer? && slots[d].kind.DataTransfer?
      requires !slots[s].full ==> r.srcSaysEmpty
      modifies this`held, slots, set m: Media | m in held
      ensures Valid() && capClosed == old(capClosed)
      ensures o == old(Verdict(s, d, r))
      ensures held == if o.Good? && s != d then Shift(old(held), s, d) else old(held)
      ensures o.Good? && s != d ==> Arrived(s, d) && !slots[s].loaded && slots[d].loaded
      ensures o.LoadFailed? ==> held[s] != null && Untraced(s, d, r.reloaded) && old(held[s]) == held[s]
      ensures o.LoadFailed? ==>
        (slots[s].Same() && slots[d].Same() && held[s].lastLocation == old(held[s].lastLocation) <==>
        old(Untraced(s, d, r.reloaded)))
      ensures old(Tame()) ==> (Tame() <==> !(o.LoadFailed? && r.reloaded))
      ensures forall i ::
        0 <= i < |slots| && ((i != s && i != d) || (!o.Good? && !o.LoadFailed?)) ==> unchanged(slots[i])
    {
      var src, dest := slots[s], slots[d];
      if s == d {
        o := Good;
      } else if !(src.full || !r.srcSaysEmpty) {
        o := SourceEmpty;
      } else if dest.full || !r.destSaysEmpty {
        o := DestinationFull;
      } else if !r.script {
        o := ScriptFailed;
      } else if !r.unloaded {
        o := UnloadFailed;
      } else {
        o := HandOver(s, d, r);
      }
    }

    // A drive got its cartridge back and loaded it.
    ghost predicate GivenBack(src: nat, o: Outcome, r: Replies) {
      layout.SlotType(src).DataTransfer? && o.LoadFailed? && r.reloaded
    }

    // After a failed move between drives the next move takes the cartridge out
    // of a drive that has it loaded, exactly when the drive loaded it again.
    method FailedThenOut(s: nat, d: nat, e: nat, r: Replies, q: Replies) returns (early: bool)
      requires Valid() && s < |slots| && d < |slots| && e < |slots|
      requires slots[s].kind.DataTransfer? && slots[d].kind.DataTransfer? && !slots[e].kind.DataTransfer?
      requires slots[s].full && Verdict(s, d, r).LoadFailed?
      requires !slots[e].full && PortOk(e) && q.script
      modifies this`held, slots, set m: Media | m in held
      ensures Valid() && held == Shift(old(held), s, e)
      ensures early == r.reloaded && slots[s].loaded == (r.reloaded && !q.emptied)
    {
      var o := MoveDriveToDrive(s, d, r);
      assert slots[s].access && slots[s].loaded == r.reloaded && unchanged(slots[e]);
      o, early := MoveDriveToSlot(s, e, q);
    }

    // The four kinds of move.
    method Carry(s: nat, d: nat, r: Replies) returns (o: Outcome, early: bool)
      requires Valid() && s < |slots| && d < |slots|
      requires slots[s].kind.DataTransfer? && !slots[s].full ==> r.srcSaysEmpty
      modifies this`held, slots, set m: Media | m in held
      ensures Valid() && capClosed == old(capClosed)
      ensures o == old(Verdict(s, d, r))
      ensures held == if o.Good? && s != d then Shift(old(held), s, d) else old(held)
      ensures multiset(held) == multiset(old(held))
      ensures o.Good? && s != d ==> Arrived(s, d)
      ensures forall i ::
        0 <= i < |slots| &&
        ((i != s && i != d) || (!o.Good? && !(o.LoadFailed? && slots[s].kind.DataTransfer?))) ==>
        unchanged(slots[i])
      ensures early ==> o.Good? && old(slots[s].access && slots[s].loaded)
      ensures old(Tame()) ==> !early && (Tame() <==> !GivenBack(slots[s].location, o, r))
    {
      early := false;
      ghost var before := held;
      if slots[s].kind.DataTransfer? && slots[d].kind.DataTransfer? {
        o := MoveDriveToDrive(s, d, r);
      } else if slots[s].kind.DataTransfer? {
        o, early := MoveDriveToSlot(s, d, r);
      } else if slots[d].kind.DataTransfer? {
        o := MoveSlotToDrive(s, d, r);
      } else {
        o := MoveSlotToSlot(s, d, r);
      }
      if o.Good? && s != d {
        ShiftConserves(before, s, d);
      }
    }

    // The transport element and the two addresses are there to be used.
    ghost predicate Accepted(transport: nat, src: nat, dest: nat) {
      && layout.SlotType(if transport == 0 then layout.startPicker else transport) == MediumTransport
      && (exists i :: 0 <= i < |slots| && slots[i].location == src && Movable(i))
      && (exists j :: 0 <= j < |slots| && slots[j].location == dest && Movable(j))
    }

    method Accept(transport: nat, src: nat, dest: nat) returns (s: nat, d: nat)
      requires Shape()
      ensures s < |slots| <==> Accepted(transport, src, dest)
      ensures if s < |slots| then d < |slots| && slots[s].location == src && slots[d].location == dest else s == |slots|
    {
      var i, srcOk := ValidSlot(src);
      var j, destOk := ValidSlot(dest);
      var picker := if transport == 0 then layout.startPicker else transport;
      s, d := |slots|, |slots|;
      if layout.SlotType(picker) == MediumTransport && srcOk && destOk {
        s, d := i, j;
      }
    }

    // smc_move_medium: s and d are the elements, once the addresses are
    // accepted. The transport element and the two addresses are checked
    // before anything moves.
    method MoveMedium(transport: nat, src: nat, dest: nat, invert: bool, port: nat, r: Replies)
      returns (o: Outcome, early: bool, s: nat, d: nat)
      requires Valid()
      requires forall i ::
        0 <= i < |slots| && slots[i].location == src && slots[i].kind.DataTransfer? && !slots[i].full ==>
        r.srcSaysEmpty
      modifies this`held, slots, set m: Media | m in held
      ensures Valid() && capClosed == old(capClosed)
      ensures multiset(held) == multiset(old(held))
      ensures s < |slots| ==> d < |slots| && slots[s].location == src && slots[d].location == dest
      ensures held == if o.Good? && s < |slots| && s != d then Shift(old(held), s, d) else old(held)
      ensures s < |slots| ==> o == old(Verdict(s, d, r))
      ensures s < |slots| <==> !invert && port == 0 && Accepted(transport, src, dest)
      ensures s == |slots| ==>
        o == if invert || port == 0xc0 then InvalidField else if port != 0 then Good else InvalidElement
      ensures s < |slots| && o.Good? && s != d ==> Arrived(s, d)
      ensures forall i :: 0 <= i < |slots| && i != s && i != d ==> unchanged(slots[i])
      ensures early ==> s < |slots| && o.Good? && old(slots[s].access && slots[s].loaded)
      ensures old(Tame()) ==> !early && (Tame() <==> !GivenBack(src, o, r))
    {
      s, d := |slots|, |slots|;
      early := false;
      if invert || port == 0xc0 {
        o := InvalidField;
      } else if port != 0 {
        o := Good;
      } else {
        s, d := Accept(transport, src, dest);
        if s == |slots| {
          o := InvalidElement;
        } else {
          o, early := Carry(s, d, r);
        }
      }
    }

    // What a drive answers about an element known to be empty is taken to be
    // the truth.
    method Honest(src: nat, r: Replies) returns (h: Replies)
      requires Valid()
      ensures forall i :: 0 <= i < |slots| && slots[i].location == src && !slots[i].full ==> h.srcSaysEmpty
      ensures h == r || h == r.(srcSaysEmpty := true)
    {
      var i := Find(src);
      h := if i < |slots| && !slots[i].full then r.(srcSaysEmpty := true) else r;
    }

    // set_access_bit: a drive has unloaded on its host's command and says so.
    method Ejected(id: nat)
      requires Valid()
      modifies slots
      ensures Valid() && (old(Tame()) ==> Tame())
      ensures forall i :: 0 <= i < |slots| ==>
        if slots[i].kind.DataTransfer? && slots[i].driveId == id then
          !slots[i].loaded && slots[i].access == (old(slots[i].access) || slots[i].full)
        else unchanged(slots[i])
    {
      for k := 0 to |slots|
        invariant Valid()
        invariant forall i :: k <= i < |slots| ==> unchanged(slots[i])
        invariant forall i :: 0 <= i < k ==> slots[i].full == old(slots[i].full)
        invariant forall i :: 0 <= i < k ==>
          if slots[i].kind.DataTransfer? && slots[i].driveId == id then
            !slots[i].loaded && slots[i].access == (old(slots[i].access) || slots[i].full)
          else unchanged(slots[i])
      {
        if slots[k].kind.DataTransfer? && slots[k].driveId == id {
          slots[k].loaded := false;
          if slots[k].full {
            slots[k].access := true;
          }
        }
      }
    }

    // Among the first k requests some drive loaded a cartridge it got back.
    ghost predicate SomeGivenBack(requests: seq<Request>, outcomes: seq<Outcome>, answers: seq<Replies>, k: nat)
      requires k <= |requests| && k <= |outcomes| && k <= |answers|
    {
      exists j :: 0 <= j < k && requests[j].Move? && GivenBack(requests[j].src, outcomes[j], answers[j])
    }

    // Over any run of moves and ejects, whatever the outside answers, each
    // cartridge is in exactly one element, and none leaves a drive that has it
    // loaded unless a drive loaded one it got back before.
    method MoveAll(requests: seq<Request>, answers: seq<Replies>) returns (outcomes: seq<Outcome>, early: seq<bool>)
      requires Valid() && |requests| == |answers|
      modifies this`held, slots, set m: Media | m in held
      ensures Valid() && |outcomes| == |requests| && |early| == |requests|
      ensures multiset(held) == multiset(old(held))
      ensures (forall i :: 0 <= i < |outcomes| && requests[i].Move? ==> !outcomes[i].Good?) ==> held == old(held)
      ensures old(Tame()) ==>
        forall k :: 0 <= k < |early| && early[k] ==> SomeGivenBack(requests, outcomes, answers, k)
      ensures old(Tame()) && !SomeGivenBack(requests, outcomes, answers, |requests|) ==> Tame()
    {
      outcomes, early := [], [];
      for k := 0 to |requests|
        invariant Valid() && |outcomes| == k && |early| == k
        invariant multiset(held) == multiset(old(held))
        invariant (forall i :: 0 <= i < k && requests[i].Move? ==> !outcomes[i].Good?) ==> held == old(held)
        invariant old(Tame()) ==> forall i :: 0 <= i < k && early[i] ==> SomeGivenBack(requests, outcomes, answers, i)
        invariant old(Tame()) && !SomeGivenBack(requests, outcomes, answers, k) ==> Tame()
      {
        SameCartridges(held, old(held));
        var o, e := Good, false;
        var s, d;
        match requests[k] {
          case Move(transport, src, dest, invert, port) =>
            var r := Honest(src, answers[k]);
            o, e, s, d := MoveMedium(transport, src, dest, invert, port, r);
          case Eject(id) =>
            Ejected(id);
        }
        ghost var before := outcomes;
        outcomes, early := outcomes + [o], early + [e];
        Longer(requests, before, o, answers, k);
      }
    }

    // An outcome more leaves what is known of those before it.
    lemma Longer(requests: seq<Request>, outcomes: seq<Outcome>, o: Outcome, answers: seq<Replies>, k: nat)
      requires k == |outcomes| < |requests| == |answers|
      ensures forall i :: 0 <= i < k ==> (outcomes + [o])[i] == outcomes[i]
      ensures forall i :: 0 <= i <= k ==>
        (SomeGivenBack(requests, outcomes + [o], answers, i) <==> SomeGivenBack(requests, outcomes, answers, i))
      ensures SomeGivenBack(requests, outcomes + [o], answers, k + 1) <==>
        SomeGivenBack(requests, outcomes, answers, k) ||
        (requests[k].Move? && GivenBack(requests[k].src, o, answers[k]))
    {
      forall i | 0 <= i <= k
        ensures SomeGivenBack(requests, outcomes + [o], answers, i) <==> SomeGivenBack(requests, outcomes, answers, i)
      {
        assert forall j :: 0 <= j < i ==> (outcomes + [o])[j] == outcomes[j];
      }
      assert (outcomes + [o])[k] == o;
    }
  }

  datatype Request =
    | Move(transport: nat, src: nat, dest: nat, invert: bool, port: nat)
    | Eject(driveId: nat)

  lemma SameCartridges(a: Inventory, b: Inventory)
    requires multiset(a) == multiset(b)
    ensures forall m :: m in a <==> m in b
  {
    forall m: Media?
      ensures m in a <==> m in b
    {
      assert m in a <==> m in multiset(a);
      assert m in b <==> m in multiset(b);
    }
  }

  // Two empty drives and a storage slot with a cartridge in it.
  method TwoDrives() returns (changer: Library)
    ensures changer.Valid() && changer.Tame() && fresh(changer) && |changer.slots| == 3
    ensures changer.capClosed && forall i :: 0 <= i < 3 ==> fresh(changer.slots[i])
    ensures changer.slots[0].kind.DataTransfer? && changer.slots[1].kind.DataTransfer?
    ensures changer.slots[2].kind.StorageElement?
    ensures changer.held[0] == null && changer.held[1] == null
    ensures changer.held[2] != null && fresh(changer.held[2])
  {
    var first := new Slot(256, DataTransfer, 10);
    var second := new Slot(257, DataTransfer, 11);
    var home := new Slot(1024, StorageElement, 0);
    home.media := new Media("G03001L8");
    home.full := true;
    changer := new Library([first, second, home], Layout(256, 2, 0, 1, 16, 0, 1024, 1), true);
  }

  // The cartridge is loaded, a move to the other drive fails, the first drive
  // loads it again, and the next move takes it out without an unload. It stays loaded unless
  // the drive, told afterwards that it is empty, unloads then.
  method TakenWhileLoaded(emptied: bool) returns (early: bool, still: bool)
    ensures early && still == !emptied
  {
    var changer := TwoDrives();
    var ready := Replies(true, true, true, true, true, emptied, true);
    var o := changer.MoveSlotToDrive(2, 0, ready);
    early := changer.FailedThenOut(0, 1, 2, ready.(loaded := false), ready);
    still := changer.slots[0].loaded;
  }
}
