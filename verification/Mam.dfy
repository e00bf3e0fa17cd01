// The attributes kept in a cartridge's auxiliary memory, stored as entries of
// an id, a length and a value in the files "mam" and "mhvtl_data"
// (usr/vtlcart.c, read_mam and write_mam; usr/vtllib.c, init_mam).
module Mam {
  import opened Basics
  import opened Files

  // An attribute of the table, or an entry of a file.
  datatype Attr = Attr(id: nat, value: seq<byte>) {
    predicate Valid() {
      id < 0x1_0000 && |value| < 0x1_0000
    }
  }

  type Table = seq<Attr>

  predicate AllValid(t: Table) {
    forall i :: 0 <= i < |t| ==> t[i].Valid()
  }

  predicate Distinct(t: Table) {
    forall i, j :: 0 <= i < j < |t| ==> t[i].id != t[j].id
  }

  predicate SameShape(a: Table, b: Table) {
    |a| == |b| && forall i :: 0 <= i < |a| ==> a[i].id == b[i].id && |a[i].value| == |b[i].value|
  }

  // ---------------------------------------------------------------- encoding

  function Le16(x: nat): (s: seq<byte>)
    requires x < 0x1_0000
    ensures |s| == 2
  {
    [x % 256, x / 256]
  }

  function Un16(s: seq<byte>): nat
    requires |s| == 2
  {
    (s[0] as int) + 256 * (s[1] as int)
  }

  function EncodeOne(e: Attr): seq<byte>
    requires e.Valid()
  {
    Le16(e.id) + Le16(|e.value|) + e.value
  }

  function Encode(es: seq<Attr>): seq<byte>
    requires AllValid(es)
  {
    if es == [] then [] else Encode(es[..|es| - 1]) + EncodeOne(es[|es| - 1])
  }

  // An entry in the file: id and length in 16 bits each, the low byte first,
  // and the value.
  lemma EntryBytes(e: Attr)
    requires e.Valid()
    ensures var b := EncodeOne(e);
      && |b| == 4 + |e.value| && b[4..] == e.value
      && (b[0] as int) + 256 * (b[1] as int) == e.id && (b[2] as int) + 256 * (b[3] as int) == |e.value|
  {
  }

  // Entry after entry, the k-th behind the bytes of those before it.
  lemma {:induction false} EntryAt(es: seq<Attr>, k: nat)
    requires AllValid(es) && k < |es|
    ensures var at := |Encode(es[..k])|;
      at + 4 + |es[k].value| <= |Encode(es)| && Encode(es)[at..at + 4 + |es[k].value|] == EncodeOne(es[k])
  {
    var n := |es| - 1;
    if k < n {
      assert es[..n][..k] == es[..k];
      EntryAt(es[..n], k);
    }
  }

  // ---------------------------------------------------------------- decoding

  // The first attribute with an id, or the length of the table.
  function Index(t: Table, id: nat): (i: nat)
    ensures i <= |t| && (forall j :: 0 <= j < i ==> t[j].id != id) && (i < |t| ==> t[i].id == id)
  {
    if t == [] then 0
    else if t[0].id == id then 0
    else 1 + Index(t[1..], id)
  }

  lemma IndexIs(t: Table, id: nat, i: nat)
    requires i <= |t| && (forall j :: 0 <= j < i ==> t[j].id != id) && (i < |t| ==> t[i].id == id)
    ensures i == Index(t, id)
  {
  }

  // A field after a read of as much of w as it has room for.
  function Overlay(field: seq<byte>, w: seq<byte>): (r: seq<byte>)
    ensures |r| == |field|
  {
    if |w| >= |field| then w[..|field|] else w + field[|w|..]
  }

  function Store(t: Table, i: nat, w: seq<byte>): (r: Table)
    requires i < |t|
    ensures SameShape(t, r)
  {
    t[i := t[i].(value := Overlay(t[i].value, w))]
  }

  // A seek can go beyond the end of the file.
  function Skip(rest: seq<byte>, n: nat): seq<byte> {
    if n >= |rest| then [] else rest[n..]
  }

  datatype Outcome = Outcome(ok: bool, table: Table)

  // The read loop, on what is left of the file.
  function Parse(rest: seq<byte>, t: Table): (r: Outcome)
    ensures SameShape(t, r.table)
    decreases |rest|, 0
  {
    if |rest| < 2 then Outcome(true, t)
    else if |rest| < 4 then Outcome(false, t)
    else ParseValue(rest[4..], Index(t, Un16(rest[..2])), Un16(rest[2..4]), t)
  }

  // The same from a value on, that belongs to the i-th attribute, if any.
  function ParseValue(rest: seq<byte>, i: nat, length: nat, t: Table): (r: Outcome)
    requires i <= |t|
    ensures SameShape(t, r.table)
    decreases |rest|, 1
  {
    if i == |t| then Parse(Skip(rest, length), t)
    else
      var len := Least(length, |t[i].value|);
      if |rest| < len then Outcome(false, Store(t, i, rest))
      else Parse(Skip(rest, length), Store(t, i, rest[..len]))
  }

  // A file that ends within an entry is refused: one byte is passed over, but
  // not half a header, nor a value with fewer bytes than the field and the
  // entry have.
  lemma HeaderCutShort(rest: seq<byte>, t: Table)
    ensures |rest| < 2 ==> Parse(rest, t) == Outcome(true, t)
    ensures 2 <= |rest| < 4 ==> Parse(rest, t) == Outcome(false, t)
  {
  }

  lemma ValueCutShort(rest: seq<byte>, t: Table, i: nat, length: nat)
    requires |rest| >= 4 && i < |t| && forall j :: 0 <= j < i ==> t[j].id != t[i].id
    requires (rest[0] as int) + 256 * (rest[1] as int) == t[i].id
    requires (rest[2] as int) + 256 * (rest[3] as int) == length
    requires |rest| - 4 < length && |rest| - 4 < |t[i].value|
    ensures !Parse(rest, t).ok
  {
    IndexIs(t, t[i].id, i);
  }

  // --------------------------------------------------- what the entries mean

  // An entry sets the attribute of its id, as far as both values reach; an
  // unknown id means nothing.
  function Apply(t: Table, e: Attr): (r: Table)
    ensures SameShape(t, r)
  {
    var i := Index(t, e.id);
    if i == |t| then t else Store(t, i, e.value)
  }

  function ApplyAll(t: Table, es: seq<Attr>): (r: Table)
    ensures SameShape(t, r)
  {
    if es == [] then t else Apply(ApplyAll(t, es[..|es| - 1]), es[|es| - 1])
  }

  lemma SixteenBits(x: nat)
    requires x < 0x1_0000
    ensures Un16(Le16(x)) == x
  {
  }

  lemma OverlayPart(field: seq<byte>, w: seq<byte>)
    ensures Overlay(field, w[..Least(|w|, |field|)]) == Overlay(field, w)
  {
  }

  // One entry is read whole, whatever its id and length are: the next read
  // starts where it ends.
  lemma ParseOne(e: Attr, tail: seq<byte>, t: Table)
    requires e.Valid()
    ensures Parse(EncodeOne(e) + tail, t) == Parse(tail, Apply(t, e))
  {
    var rest := EncodeOne(e) + tail;
    assert rest[..2] == Le16(e.id) && rest[2..4] == Le16(|e.value|);
    SixteenBits(e.id);
    SixteenBits(|e.value|);
    assert rest[4..] == e.value + tail;
    assert Skip(rest[4..], |e.value|) == tail;
    var i := Index(t, e.id);
    if i < |t| {
      var len := Least(|e.value|, |t[i].value|);
      assert rest[4..][..len] == e.value[..len];
      OverlayPart(t[i].value, e.value);
    }
  }

  // A list of entries, of any ids and lengths, in any order, never puts the
  // parse out of step.
  lemma {:induction false} ParseAll(es: seq<Attr>, tail: seq<byte>, t: Table)
    requires AllValid(es)
    ensures Parse(Encode(es) + tail, t) == Parse(tail, ApplyAll(t, es))
  {
    if es == [] {
      assert Encode(es) + tail == tail;
    } else {
      var n := |es| - 1;
      ParseAll(es[..n], EncodeOne(es[n]) + tail, t);
      ParseOne(es[n], tail, ApplyAll(t, es[..n]));
      Regroup(Encode(es[..n]), EncodeOne(es[n]), tail);
    }
  }

  // Byte by byte, without a table: the last entry of the id that is long enough.
  function LastByte(es: seq<Attr>, id: nat, k: nat, otherwise: byte): byte {
    if es == [] then otherwise
    else
      var e := es[|es| - 1];
      if e.id == id && k < |e.value| then e.value[k] else LastByte(es[..|es| - 1], id, k, otherwise)
  }

  lemma {:induction false} ApplyIsLastByte(t: Table, es: seq<Attr>, i: nat, k: nat)
    requires Distinct(t) && i < |t| && k < |t[i].value|
    ensures ApplyAll(t, es)[i].value[k] == LastByte(es, t[i].id, k, t[i].value[k])
  {
    if es != [] {
      ApplyIsLastByte(t, es[..|es| - 1], i, k);
      var before, e := ApplyAll(t, es[..|es| - 1]), es[|es| - 1];
      if e.id == t[i].id {
        IndexIs(before, e.id, i);
      }
    }
  }

  // The entries hold a table: each known id only with its value, perhaps with
  // more bytes behind it, and each attribute that has a value at least once.
  ghost predicate Holds(es: seq<Attr>, t: Table) {
    && (forall j, i :: 0 <= j < |es| && 0 <= i < |t| && es[j].id == t[i].id ==> t[i].value <= es[j].value)
    && (forall i :: 0 <= i < |t| && t[i].value != [] ==> HasId(es, t[i].id))
  }

  predicate HasId(es: seq<Attr>, id: nat) {
    exists j :: 0 <= j < |es| && es[j].id == id
  }

  lemma {:induction false} LastByteHeld(es: seq<Attr>, id: nat, value: seq<byte>, k: nat, otherwise: byte)
    requires forall j :: 0 <= j < |es| && es[j].id == id ==> value <= es[j].value
    requires k < |value| && (HasId(es, id) || otherwise == value[k])
    ensures LastByte(es, id, k, otherwise) == value[k]
  {
    if es != [] && es[|es| - 1].id != id {
      var n := |es| - 1;
      if HasId(es, id) {
        var j :| 0 <= j < |es| && es[j].id == id;
        assert es[..n][j].id == id;
      }
      LastByteHeld(es[..n], id, value, k, otherwise);
    }
  }

  lemma HeldIsApplied(memory: Table, es: seq<Attr>, t: Table)
    requires SameShape(memory, t) && Distinct(t) && Holds(es, t)
    ensures ApplyAll(memory, es) == t
  {
    var r := ApplyAll(memory, es);
    forall i | 0 <= i < |t|
      ensures r[i] == t[i]
    {
      forall k | 0 <= k < |t[i].value|
        ensures r[i].value[k] == t[i].value[k]
      {
        ApplyIsLastByte(memory, es, i, k);
        LastByteHeld(es, t[i].id, t[i].value, k, memory[i].value[k]);
      }
    }
  }

  // Entries that hold a table give it back, in any order, with unknown entries
  // between them, and with longer values; whatever was in memory before.
  lemma HeldIsRestored(memory: Table, es: seq<Attr>, t: Table)
    requires AllValid(es) && SameShape(memory, t) && Distinct(t) && Holds(es, t)
    ensures Parse(Encode(es), memory) == Outcome(true, t)
  {
    ParseAll(es, [], memory);
    assert Encode(es) + [] == Encode(es);
    HeldIsApplied(memory, es, t);
  }

  // ----------------------------------------------------------- the two files

  // A table whose last row only ends it.
  predicate Proper(t: Table) {
    |t| > 0 && AllValid(t) && t[|t| - 1].value == []
  }

  function Rows(t: Table): seq<Attr>
    requires |t| > 0
  {
    t[..|t| - 1]
  }

  lemma RowsHold(t: Table)
    requires Proper(t) && Distinct(t)
    ensures AllValid(Rows(t)) && Holds(Rows(t), t)
  {
    var es := Rows(t);
    forall i | 0 <= i < |t| && t[i].value != []
      ensures HasId(es, t[i].id)
    {
      assert es[i].id == t[i].id;
    }
  }

  datatype Memory = Memory(tapeVersion: seq<byte>, mamVersion: seq<byte>, attributes: Table, own: Table) {
    predicate Valid() {
      |tapeVersion| == 4 == |mamVersion| && Proper(attributes) && Proper(own)
    }
  }

  predicate SameLayout(a: Memory, b: Memory) {
    a.Valid() && b.Valid() && SameShape(a.attributes, b.attributes) && SameShape(a.own, b.own)
  }

  function MamImage(m: Memory): seq<byte>
    requires m.Valid()
  {
    m.tapeVersion + m.mamVersion + Encode(Rows(m.attributes))
  }

  function OwnImage(m: Memory): seq<byte>
    requires m.Valid()
  {
    Encode(Rows(m.own))
  }

  // The file "mam" starts with the two versions, and the first entry is at 8.
  lemma ImageStarts(m: Memory)
    requires m.Valid()
    ensures var f := MamImage(m);
      |f| >= 8 && f[..4] == m.tapeVersion && f[4..8] == m.mamVersion && f[8..] == Encode(Rows(m.attributes))
  {
  }

  // A file that is not open is not read.
  datatype File = Closed | Open(bytes: seq<byte>)

  datatype Loaded = Loaded(ok: bool, memory: Memory)

  function ReadVersions(f: seq<byte>, m: Memory): Loaded
    requires m.Valid()
  {
    if |f| < 4 then Loaded(false, m.(tapeVersion := Overlay(m.tapeVersion, f)))
    else if |f| < 8 then Loaded(false, m.(tapeVersion := f[..4], mamVersion := Overlay(m.mamVersion, f[4..])))
    else Loaded(true, m.(tapeVersion := f[..4], mamVersion := f[4..8]))
  }

  function ReadAttributes(f: File, m: Memory): Loaded
    requires m.Valid()
  {
    if f.Closed? then Loaded(true, m)
    else
      var v := ReadVersions(f.bytes, m);
      if !v.ok then v
      else
        var r := Parse(f.bytes[8..], m.attributes);
        Loaded(r.ok, v.memory.(attributes := r.table))
  }

  function ReadOwn(f: File, m: Memory): Loaded
    requires m.Valid()
  {
    if f.Closed? then Loaded(true, m)
    else
      var r := Parse(f.bytes, m.own);
      Loaded(r.ok, m.(own := r.table))
  }

  function Read(f: File, own: File, m: Memory): (r: Loaded)
    requires m.Valid()
    ensures SameLayout(m, r.memory)
  {
    ShapeIsProper(m.attributes);
    ShapeIsProper(m.own);
    var a := ReadAttributes(f, m);
    if a.ok then ReadOwn(own, a.memory) else a
  }

  lemma ShapeIsProper(t: Table)
    requires Proper(t)
    ensures forall r :: SameShape(t, r) ==> Proper(r)
  {
  }

  // Everything written is read back, into any memory of the same layout, if
  // the files held nothing behind what was written.
  lemma WriteThenRead(m: Memory, before: Memory, oldMam: seq<byte>, oldOwn: seq<byte>)
    requires SameLayout(before, m) && Distinct(m.attributes) && Distinct(m.own)
    requires |oldMam| <= |MamImage(m)| && |oldOwn| <= |OwnImage(m)|
    ensures Read(Open(PWrite(oldMam, 0, MamImage(m))), Open(PWrite(oldOwn, 0, OwnImage(m))), before) == Loaded(true, m)
  {
    var f, own := PWrite(oldMam, 0, MamImage(m)), PWrite(oldOwn, 0, OwnImage(m));
    assert f == MamImage(m) && own == OwnImage(m);
    RowsHold(m.attributes);
    RowsHold(m.own);
    HeldIsRestored(before.attributes, Rows(m.attributes), m.attributes);
    HeldIsRestored(before.own, Rows(m.own), m.own);
    assert f[..4] == m.tapeVersion && f[4..8] == m.mamVersion && f[8..] == Encode(Rows(m.attributes));
  }

  // The files are not cut: what lay behind what was written is read after it,
  // over the attributes just read.
  lemma RemainderIsRead(t: Table, memory: Table, f: seq<byte>)
    requires Proper(t) && Distinct(t) && SameShape(memory, t)
    requires |f| >= |Encode(Rows(t))|
    ensures Parse(PWrite(f, 0, Encode(Rows(t))), memory) == Parse(f[|Encode(Rows(t))|..], t)
  {
    var image := Encode(Rows(t));
    RowsHold(t);
    ParseAll(Rows(t), f[|image|..], memory);
    HeldIsApplied(memory, Rows(t), t);
    PWriteOver(f, image);
  }

  lemma PWriteAll(f: seq<byte>, s: seq<byte>)
    requires |f| <= |s|
    ensures PWrite(f, 0, s) == s
  {
  }

  lemma PWriteOver(f: seq<byte>, s: seq<byte>)
    requires |s| <= |f|
    ensures PWrite(f, 0, s) == s + f[|s|..]
  {
  }

  lemma ApplyNothing(t: Table, id: nat)
    ensures Apply(t, Attr(id, [])) == t
  {
    var i := Index(t, id);
    if i < |t| {
      assert Overlay(t[i].value, []) == t[i].value;
    }
  }

  // Entries of no length change nothing.
  lemma {:induction false} ZerosKeep(n: nat, t: Table)
    ensures Parse(Zeros(n), t).table == t
    decreases n
  {
    if n >= 4 {
      var e := Attr(0, []);
      assert Zeros(n) == EncodeOne(e) + Zeros(n - 4);
      ParseOne(e, Zeros(n - 4), t);
      ApplyNothing(t, 0);
      ZerosKeep(n - 4, t);
    }
  }

  function Other(b: byte): byte {
    if b == 0 then 1 else 0
  }

  // Bytes that set the first byte of an attribute to something else, or end
  // before they can.
  function Spoiler(e: Attr, n: nat): (s: seq<byte>)
    requires e.Valid() && e.value != [] && n >= 4
    ensures |s| == n
  {
    Le16(e.id) + Le16(|e.value|) + (if n == 4 then [] else [Other(e.value[0])] + Zeros(n - 5))
  }

  lemma SpoilerSpoils(t: Table, i: nat, n: nat)
    requires AllValid(t) && Distinct(t) && i < |t| && t[i].value != [] && n >= 4
    ensures Parse(Spoiler(t[i], n), t) != Outcome(true, t)
  {
    IndexIs(t, t[i].id, i);
    if n >= 4 + |t[i].value| {
      SpoilerSets(t, i, n);
    } else {
      SpoilerStarts(t[i], n);
      EndsShort(t, i, Spoiler(t[i], n));
    }
  }

  lemma SpoilerSets(t: Table, i: nat, n: nat)
    requires AllValid(t) && i < |t| && Index(t, t[i].id) == i && t[i].value != [] && n >= 4 + |t[i].value|
    ensures Parse(Spoiler(t[i], n), t).table != t
  {
    var e := t[i];
    SpoilerWhole(e, n);
    SetsOther(t, i, Spoiler(e, n)[4..4 + |e.value|], n - 4 - |e.value|);
  }

  lemma SpoilerStarts(e: Attr, n: nat)
    requires e.Valid() && e.value != [] && n >= 4
    ensures Spoiler(e, n)[..2] == Le16(e.id) && Spoiler(e, n)[2..4] == Le16(|e.value|)
  {
  }

  lemma SpoilerWhole(e: Attr, n: nat)
    requires e.Valid() && e.value != [] && n >= 4 + |e.value|
    ensures var w := Spoiler(e, n)[4..4 + |e.value|];
      w[0] != e.value[0] && Spoiler(e, n) == EncodeOne(Attr(e.id, w)) + Zeros(n - 4 - |e.value|)
  {
  }

  lemma SetsOther(t: Table, i: nat, w: seq<byte>, n: nat)
    requires AllValid(t) && i < |t| && Index(t, t[i].id) == i
    requires |w| == |t[i].value| > 0 && w[0] != t[i].value[0]
    ensures Parse(EncodeOne(Attr(t[i].id, w)) + Zeros(n), t).table != t
  {
    var e := Attr(t[i].id, w);
    ParseOne(e, Zeros(n), t);
    ZerosKeep(n, Apply(t, e));
    assert Apply(t, e)[i].value == w;
  }

  lemma EndsShort(t: Table, i: nat, s: seq<byte>)
    requires AllValid(t) && i < |t| && Index(t, t[i].id) == i && 4 <= |s| < 4 + |t[i].value|
    requires s[..2] == Le16(t[i].id) && s[2..4] == Le16(|t[i].value|)
    ensures !Parse(s, t).ok
  {
    SixteenBits(t[i].id);
    SixteenBits(|t[i].value|);
  }

  // Written over a file of n bytes, a table is sure to be read back exactly when
  // fewer than two bytes lie behind it.
  lemma RestoredExactlyWhen(t: Table, memory: Table, n: nat)
    requires Proper(t) && Distinct(t) && SameShape(memory, t)
    requires exists i :: 0 <= i < |t| && t[i].value != []
    ensures (forall f: seq<byte> :: |f| == n ==> Parse(PWrite(f, 0, Encode(Rows(t))), memory) == Outcome(true, t))
      <==> n < |Encode(Rows(t))| + 2
  {
    var image := Encode(Rows(t));
    if n < |image| + 2 {
      forall f: seq<byte> | |f| == n
        ensures Parse(PWrite(f, 0, image), memory) == Outcome(true, t)
      {
        ShortRemainder(t, memory, f);
      }
    } else {
      var i :| 0 <= i < |t| && t[i].value != [];
      var r := n - |image|;
      var remainder := if r < 4 then Zeros(r) else Spoiler(t[i], r);
      var f := Zeros(|image|) + remainder;
      RemainderIsRead(t, memory, f);
      assert f[|image|..] == remainder;
      if r >= 4 {
        SpoilerSpoils(t, i, r);
      }
      assert Parse(PWrite(f, 0, image), memory) != Outcome(true, t);
    }
  }

  // An attribute of one byte, 7, written over a file that once held a 9 behind
  // it, comes back as 9.
  lemma OldByteComesBack()
    ensures var t, f := [Attr(1, [7]), Attr(0x1800, [])], Encode([Attr(1, [7]), Attr(1, [9])]);
      Proper(t) && Distinct(t) && Parse(PWrite(f, 0, Encode(Rows(t))), t).table[0].value == [9]
  {
    var t := [Attr(1, [7]), Attr(0x1800, [])];
    var es := [Attr(1, [7]), Attr(1, [9])];
    var f := Encode(es);
    assert es[..1] == [Attr(1, [7])] == Rows(t);
    var image := Encode(Rows(t));
    assert f == image + EncodeOne(Attr(1, [9]));
    RemainderIsRead(t, t, f);
    assert f[|image|..] == EncodeOne(Attr(1, [9])) + [];
    ParseOne(Attr(1, [9]), [], t);
    IndexIs(t, 1, 0);
  }

  lemma ShortRemainder(t: Table, memory: Table, f: seq<byte>)
    requires Proper(t) && Distinct(t) && SameShape(memory, t) && |f| < |Encode(Rows(t))| + 2
    ensures Parse(PWrite(f, 0, Encode(Rows(t))), memory) == Outcome(true, t)
  {
    var image := Encode(Rows(t));
    if |f| >= |image| {
      RemainderIsRead(t, memory, f);
    } else {
      RowsHold(t);
      HeldIsRestored(memory, Rows(t), t);
      PWriteAll(f, image);
    }
  }

  // ------------------------------------------------------- init_mam's tables

  // Ids and lengths, in the three ranges of standard attributes.
  const DEVICE: seq<(nat, nat)> := [
    (0x000, 8), (0x001, 8), (0x002, 8), (0x003, 8), (0x004, 8), (0x005, 8), (0x006, 1), (0x007, 2), (0x009, 4),
    (0x20a, 40), (0x20b, 40), (0x20c, 40), (0x20d, 40), (0x220, 8), (0x221, 8), (0x222, 8), (0x223, 8)]

  const MEDIUM: seq<(nat, nat)> := [
    (0x400, 8), (0x401, 32), (0x402, 4), (0x403, 4), (0x404, 8), (0x405, 1), (0x406, 12), (0x407, 8), (0x408, 1),
    (0x409, 2)]

  const HOST: seq<(nat, nat)> := [
    (0x800, 8), (0x801, 32), (0x802, 8), (0x803, 160), (0x804, 12), (0x805, 1), (0x806, 32), (0x807, 80),
    (0x808, 160), (0x80b, 16), (0x80c, 0x46), (0x1623, 1), (0x1800, 0)]

  // mhvtl's own; the row that ends this table is never set, and so has id 0.
  const OWN: seq<(nat, nat)> := [
    (0x01, 1), (0x02, 2), (0x03, 1), (0x04, 1), (0x05, 1), (0x0a, 0x46), (0x0b, 0x46), (0x0c, 0x46),
    (0x0d, 8), (0x0e, 8), (0x0f, 8), (0x10, 8), (0x06, 4), (0x07, 2), (0x08, 8), (0x09, 32), (0, 0)]

  predicate LaidOut(t: Table, layout: seq<(nat, nat)>) {
    |t| == |layout| && forall i :: 0 <= i < |t| ==> t[i].id == layout[i].0 && |t[i].value| == layout[i].1
  }

  predicate DistinctIds(l: seq<(nat, nat)>) {
    forall i, j :: 0 <= i < j < |l| ==> l[i].0 != l[j].0
  }

  predicate Within(l: seq<(nat, nat)>, low: nat, high: nat) {
    forall i :: 0 <= i < |l| ==> low <= l[i].0 < high && l[i].1 < 0x1_0000
  }

  lemma DeviceIds()
    ensures DistinctIds(DEVICE) && Within(DEVICE, 0, 0x400)
  {
  }

  lemma MediumIds()
    ensures DistinctIds(MEDIUM) && Within(MEDIUM, 0x400, 0x800)
  {
  }

  lemma HostIds()
    ensures DistinctIds(HOST) && Within(HOST, 0x800, 0x1_0000) && HOST[|HOST| - 1].1 == 0
  {
  }

  lemma OwnIds()
    ensures DistinctIds(OWN) && Within(OWN, 0, 0x1_0000) && OWN[|OWN| - 1].1 == 0
  {
  }

  lemma DistinctParts(a: seq<(nat, nat)>, b: seq<(nat, nat)>, low: nat, mid: nat, high: nat)
    requires low <= mid <= high
    requires DistinctIds(a) && DistinctIds(b) && Within(a, low, mid) && Within(b, mid, high)
    ensures DistinctIds(a + b) && Within(a + b, low, high)
  {
  }

  // What init_mam sets up is what the round trip asks for.
  lemma InitIsProper(attributes: Table, own: Table)
    requires LaidOut(attributes, DEVICE + MEDIUM + HOST) && LaidOut(own, OWN)
    ensures Proper(attributes) && Distinct(attributes) && Proper(own) && Distinct(own)
  {
    DeviceIds();
    MediumIds();
    HostIds();
    OwnIds();
    DistinctParts(DEVICE, MEDIUM, 0, 0x400, 0x800);
    DistinctParts(DEVICE + MEDIUM, HOST, 0, 0x800, 0x1_0000);
  }

  // -------------------------------------------------------------- in memory

  lemma {:induction false} EncodeNext(es: seq<Attr>, k: nat)
    requires AllValid(es) && k < |es|
    ensures Encode(es[..k + 1]) == Encode(es[..k]) + EncodeOne(es[k])
  {
    assert es[..k + 1][..k] == es[..k];
  }

  lemma PWriteNext(f: seq<byte>, at: nat, a: seq<byte>, b: seq<byte>)
    requires at <= |f|
    ensures PWrite(PWrite(f, at, a), at + |a|, b) == PWrite(f, at, a + b)
  {
  }

  // The loop of write_mam, for either file, from a place on.
  method WriteEntries(f: seq<byte>, at: nat, t: Table) returns (g: seq<byte>)
    requires Proper(t) && at <= |f|
    ensures g == PWrite(f, at, Encode(Rows(t)))
  {
    g := f;
    var i, pos := 0, at;
    ghost var rows := Rows(t);
    while i < |t| - 1
      invariant i <= |rows| && pos == at + |Encode(rows[..i])| <= |g|
      invariant g == PWrite(f, at, Encode(rows[..i]))
    {
      EncodeNext(rows, i);
      PWriteNext(f, at, Encode(rows[..i]), EncodeOne(rows[i]));
      var entry := Le16(t[i].id) + Le16(|t[i].value|) + t[i].value;
      g := PWrite(g, pos, entry);
      pos, i := pos + |entry|, i + 1;
    }
    assert rows[..i] == rows;
  }

  lemma SkipOn(f: seq<byte>, a: nat, b: nat)
    requires a <= |f|
    ensures Skip(f[a..], b) == Skip(f, a + b)
  {
  }

  // A read of at most n bytes from a place in the file.
  method ReadBytes(f: seq<byte>, pos: nat, n: nat) returns (s: seq<byte>)
    requires pos <= |f|
    ensures s == f[pos..][..Least(n, |f| - pos)]
  {
    s := f[pos..Least(pos + n, |f|)];
  }

  // One turn of the loop of read_mam, after the id.
  method ReadEntry(f: seq<byte>, from: nat, table: Table) returns (ok: bool, t: Table, pos: nat)
    requires from + 2 <= |f|
    ensures Parse(f[from..], table) == if ok then Parse(Skip(f, pos), t) else Outcome(false, t)
    ensures pos >= from && (ok ==> pos > from)
  {
    ghost var rest := f[from..];
    ok, t, pos := false, table, from;
    if from + 4 <= |f| {
      var bytes := ReadBytes(f, from, 4);
      assert bytes[..2] == rest[..2] && bytes[2..] == rest[2..4];
      var id, length := Un16(bytes[..2]), Un16(bytes[2..]);
      var i := FindAttribute(t, id);
      assert rest[4..] == f[from + 4..];
      assert Parse(rest, t) == ParseValue(f[from + 4..], i, length, t);
      SkipOn(f, from + 4, length);
      ok, pos := true, from + 4 + length;
      if i < |t| {
        var len := Least(length, |t[i].value|);
        var value := ReadBytes(f, from + 4, len);
        ok := |value| == len;
        assert value == if ok then f[from + 4..][..len] else f[from + 4..];
        t := t[i := t[i].(value := Overlay(t[i].value, value))];
      }
    }
  }

  // The loop of read_mam, for either file, from a place on.
  method ReadEntries(f: seq<byte>, from: nat, table: Table) returns (ok: bool, t: Table)
    requires from <= |f|
    ensures Outcome(ok, t) == Parse(f[from..], table)
  {
    ok, t := true, table;
    var pos := from;
    while ok && pos + 2 <= |f|
      invariant Parse(f[from..], table) == if ok then Parse(Skip(f, pos), t) else Outcome(false, t)
      decreases |f| - pos, ok
    {
      ok, t, pos := ReadEntry(f, pos, t);
    }
  }

  method FindAttribute(t: Table, id: nat) returns (i: nat)
    ensures i == Index(t, id)
  {
    i := 0;
    while i < |t| && t[i].id != id
      invariant i <= |t| && forall j :: 0 <= j < i ==> t[j].id != id
    {
      i := i + 1;
    }
    IndexIs(t, id, i);
  }

  class AuxiliaryMemory {
    var tapeVersion: seq<byte>
    var mamVersion: seq<byte>
    var attributes: Table
    var own: Table

    function Abs(): Memory
      reads this
    {
      Memory(tapeVersion, mamVersion, attributes, own)
    }

    // read_mam
    method ReadMam(mamFile: File, ownFile: File) returns (r: int)
      requires Abs().Valid()
      modifies this
      ensures SameLayout(old(Abs()), Abs())
      ensures Loaded(r == 0, Abs()) == Read(mamFile, ownFile, old(Abs())) && r in {0, -1}
    {
      var ok := true;
      if mamFile.Open? {
        ok := ReadMamFile(mamFile.bytes);
      }
      if ok && ownFile.Open? {
        assert ownFile.bytes[0..] == ownFile.bytes;
        ok, own := ReadEntries(ownFile.bytes, 0, own);
      }
      r := if ok then 0 else -1;
    }

    method ReadMamFile(f: seq<byte>) returns (ok: bool)
      requires Abs().Valid()
      modifies this
      ensures Loaded(ok, Abs()) == ReadAttributes(Open(f), old(Abs()))
    {
      ok := false;
      tapeVersion := Overlay(tapeVersion, f[..Least(4, |f|)]);
      if |f| >= 4 {
        mamVersion := Overlay(mamVersion, f[4..Least(8, |f|)]);
      }
      if |f| >= 8 {
        ok, attributes := ReadEntries(f, 8, attributes);
      }
    }

    // write_mam: neither file is cut to its new length.
    method WriteMam(mamFile: seq<byte>, ownFile: seq<byte>) returns (newMam: seq<byte>, newOwn: seq<byte>)
      requires Abs().Valid()
      ensures newMam == PWrite(mamFile, 0, MamImage(Abs()))
      ensures newOwn == PWrite(ownFile, 0, OwnImage(Abs()))
    {
      newMam := PWrite(mamFile, 0, tapeVersion);
      newMam := PWrite(newMam, 4, mamVersion);
      PWriteNext(mamFile, 0, tapeVersion, mamVersion);
      PWriteNext(mamFile, 0, tapeVersion + mamVersion, Encode(Rows(attributes)));
      newMam := WriteEntries(newMam, 8, attributes);
      newOwn := WriteEntries(ownFile, 0, own);
    }
  }
}
