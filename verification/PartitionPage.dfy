// Bringing the Medium Partition mode page into line with the volume that was
// loaded. The page is rewritten in place, and a size that is not recorded on
// the medium is worked out from the page while it is being rewritten.

module PartitionPage {
  import opened Basics
  import opened Geometry

  // The page as the drive keeps it.
  class ModePage {
    var page: Page

    constructor (page: Page)
      ensures this.page == page
    {
      this.page := page;
    }
  }

  // What is known of a volume: its capacity, its partitions, and the sizes
  // recorded for them, zero where none is.
  datatype Volume = Volume(capacity: nat, num: nat, recorded: seq<nat>) {
    predicate Valid() {
      && 1 <= num <= MAX_PARTITIONS == |recorded| && capacity < TWO_64
      && forall k :: 0 <= k < MAX_PARTITIONS ==> recorded[k] < TWO_64
    }

    // The size of a partition there is, as told with a page.
    function Size(p: Page, k: nat): nat
      requires Valid() && p.Valid() && k < num
    {
      if recorded[k] > 0 then recorded[k] else PageShare(capacity, num, Some(p), k)
    }

    function Sizes(p: Page): (r: seq<nat>)
      requires Valid() && p.Valid()
      ensures |r| == num
    {
      seq(num, k requires 0 <= k < num => Size(p, k))
    }

    predicate Unrecorded() {
      |recorded| == MAX_PARTITIONS && 2 <= num <= MAX_PARTITIONS && forall k :: 0 <= k < num ==> recorded[k] == 0
    }
  }

  ghost function VolumeIn(m: Medium): Volume
    reads m
  {
    Volume(m.maxCapacity, m.Num(), m.recorded)
  }

  // One descriptor is rewritten, from the page as it is by then.
  function Turn(v: Volume, p: Page, k: nat): (r: Page)
    requires v.Valid() && p.Valid() && k < MAX_PARTITIONS
    ensures r.Valid() && r.units == p.units
  {
    p.(descriptors := p.descriptors[k := Stored(if k < v.num then v.Size(p, k) else 0, Pow10(p.units))])
  }

  function Turns(v: Volume, p: Page, n: nat): (r: Page)
    requires v.Valid() && p.Valid() && n <= MAX_PARTITIONS
    ensures r.Valid() && r.units == p.units && r == p.(descriptors := r.descriptors)
    ensures forall k :: n <= k < MAX_PARTITIONS ==> r.descriptors[k] == p.descriptors[k]
  {
    if n == 0 then p else Turn(v, Turns(v, p, n - 1), n - 1)
  }

  // The page with its other fields set.
  function Headed(p: Page, maxPartitions: nat, num: nat, units: nat): Page
    requires num > 0
  {
    Page(if maxPartitions > 0 then maxPartitions - 1 else 0, num - 1, units, p.descriptors)
  }

  function Updated(v: Volume, before: Page, maxPartitions: nat, units: nat): (r: Page)
    requires v.Valid() && before.Valid() && units <= 15
    ensures r.Valid() && r.units == units && r.additional == v.num - 1
  {
    Turns(v, Headed(before, maxPartitions, v.num, units), MAX_PARTITIONS)
  }

  method SizesOf(m: Medium, page: Page) returns (sizes: seq<nat>)
    requires m.Valid() && page.Valid() && VolumeIn(m).Valid()
    ensures sizes == VolumeIn(m).Sizes(page)
  {
    sizes := [];
    for k := 0 to m.Num()
      invariant |sizes| == k
      invariant forall j :: 0 <= j < k ==> sizes[j] == VolumeIn(m).Size(page, j)
    {
      var sz := m.PartitionCapacity(Some(page), k);
      sizes := sizes + [sz];
    }
  }

  lemma SizesAreSmall(v: Volume, p: Page)
    requires v.Valid() && p.Valid()
    ensures forall k :: 0 <= k < v.num ==> v.Sizes(p)[k] < TWO_64
  {
    SharesAreSmall(v.capacity, v.num, p);
  }

  method StoredSize(m: Medium, page: Page, k: nat, unit: nat) returns (descriptor: nat)
    requires m.Valid() && page.Valid() && VolumeIn(m).Valid() && k < MAX_PARTITIONS && unit > 0
    ensures descriptor == Stored(if k < m.Num() then VolumeIn(m).Size(page, k) else 0, unit)
  {
    var sz := 0;
    if k < m.Num() {
      sz := m.PartitionCapacity(Some(page), k);
    }
    descriptor := sz / unit % 0x1_0000;
    if descriptor == 0 && sz > 0 {
      descriptor := 1;
    }
  }

  // update_medium_partition_page
  method UpdatePage(m: Medium, mode: ModePage?)
    requires m.Valid() && VolumeIn(m).Valid() && (mode != null ==> mode.page.Valid())
    modifies mode
    ensures mode != null ==> mode.page.Valid() && Finest(VolumeIn(m).Sizes(old(mode.page)), mode.page.units)
    ensures mode != null ==> mode.page == Updated(VolumeIn(m), old(mode.page), m.maxPartitions, mode.page.units)
  {
    if mode != null {
      var sizes := SizesOf(m, mode.page);
      SizesAreSmall(VolumeIn(m), mode.page);
      var units, unit := FindUnit(sizes);
      mode.page := mode.page.(
        maxAdditional := if m.maxPartitions > 0 then m.maxPartitions - 1 else 0, additional := m.Num() - 1);
      mode.page := mode.page.(units := units);
      ghost var start := mode.page;
      for k := 0 to MAX_PARTITIONS
        invariant mode.page == Turns(VolumeIn(m), start, k)
      {
        var descriptor := StoredSize(m, mode.page, k, unit);
        mode.page := mode.page.(descriptors := mode.page.descriptors[k := descriptor]);
      }
    }
  }

  // ------------------------------------------------- when the report is right

  // What is in a descriptor at the end was put there at its turn.
  lemma {:induction false} AtItsTurn(v: Volume, p: Page, n: nat, k: nat)
    requires v.Valid() && p.Valid() && k < n <= MAX_PARTITIONS
    ensures Turns(v, p, n).descriptors[k] ==
      Stored(if k < v.num then v.Size(Turns(v, p, k), k) else 0, Pow10(p.units))
  {
    if k < n - 1 {
      AtItsTurn(v, p, n - 1, k);
    }
  }

  lemma NothingAskedNothingGot(capacity: nat, num: nat, p: Page, k: nat)
    requires p.Valid() && 2 <= num <= MAX_PARTITIONS && k < num && p.descriptors[k] == 0
    ensures PageShare(capacity, num, Some(p), k) == 0
  {
    var asked, rest := Asked(p, num), Remainders(p, num);
    assert asked[k] == 0 && !rest[k];
    var budget, fixed := Budget(capacity, Count(rest)), Wrap(Sum(asked));
    if fixed > budget {
      assert asked[k] * budget == 0;
    }
  }

  // A partition whose size does not depend on the other descriptors.
  predicate Settled(v: Volume, p: Page, k: nat)
    requires v.Valid() && p.Valid() && k < v.num
  {
    v.num == 1 || v.recorded[k] > 0 || p.descriptors[k] == 0
  }

  // It is reported right whatever becomes of the others.
  lemma SettledIsRight(v: Volume, before: Page, maxPartitions: nat, units: nat, k: nat)
    requires v.Valid() && before.Valid() && Finest(v.Sizes(before), units)
    requires k < v.num && Settled(v, before, k)
    ensures Updated(v, before, maxPartitions, units).descriptors[k] == Reported(v.Sizes(before)[k], Pow10(units))
  {
    var start := Headed(before, maxPartitions, v.num, units);
    AtItsTurn(v, start, MAX_PARTITIONS, k);
    var later := Turns(v, start, k);
    if v.num > 1 && v.recorded[k] == 0 {
      NothingAskedNothingGot(v.capacity, v.num, before, k);
      NothingAskedNothingGot(v.capacity, v.num, later, k);
    }
    assert v.Size(later, k) == v.Sizes(before)[k];
  }

  lemma NothingBehind(v: Volume, before: Page, maxPartitions: nat, units: nat)
    requires v.Valid() && before.Valid() && units <= 15
    ensures forall k :: v.num <= k < MAX_PARTITIONS ==> Updated(v, before, maxPartitions, units).descriptors[k] == 0
  {
    forall k | v.num <= k < MAX_PARTITIONS
      ensures Updated(v, before, maxPartitions, units).descriptors[k] == 0
    {
      AtItsTurn(v, Headed(before, maxPartitions, v.num, units), MAX_PARTITIONS, k);
    }
  }

  // With one partition, or every size recorded or zero, the page reports the
  // sizes in the finest unit that serves.
  lemma RecordedIsReported(v: Volume, before: Page, maxPartitions: nat, units: nat)
    requires v.Valid() && before.Valid() && Finest(v.Sizes(before), units)
    requires forall k :: 0 <= k < v.num ==> Settled(v, before, k)
    ensures var page, sizes := Updated(v, before, maxPartitions, units), v.Sizes(before);
      Reports(page, sizes) &&
      forall k :: 0 <= k < v.num ==>
        page.descriptors[k] <= LARGEST_DESCRIPTOR && (page.descriptors[k] == 0 <==> sizes[k] == 0)
  {
    forall k | 0 <= k < v.num
      ensures Updated(v, before, maxPartitions, units).descriptors[k] == Reported(v.Sizes(before)[k], Pow10(units))
    {
      SettledIsRight(v, before, maxPartitions, units, k);
    }
  }

  // The counts of partitions become those of the volume, less one each.
  lemma CountsAreTheVolumes(v: Volume, before: Page, maxPartitions: nat, units: nat)
    requires v.Valid() && before.Valid() && units <= 15
    ensures var page := Updated(v, before, maxPartitions, units);
      && page.additional + 1 == v.num && page.units == units
      && (maxPartitions > 0 ==> page.maxAdditional + 1 == maxPartitions)
      && (maxPartitions == 0 ==> page.maxAdditional == 0)
  {
  }

  // ------------------------------------------- sizes that are not recorded

  // What the descriptors add up to, in units.
  function Counts(p: Page, n: nat): (r: seq<nat>)
    requires p.Valid() && n <= MAX_PARTITIONS
    ensures |r| == n
  {
    seq(n, k requires 0 <= k < n => if p.descriptors[k] == TAKES_REMAINDER then 0 else p.descriptors[k])
  }

  function Weight(p: Page, n: nat): nat
    requires p.Valid() && n <= MAX_PARTITIONS
  {
    Sum(Counts(p, n))
  }

  lemma OneMoreCount(p: Page, n: nat)
    requires p.Valid() && n < MAX_PARTITIONS
    ensures Weight(p, n + 1) == Weight(p, n) + if p.descriptors[n] == TAKES_REMAINDER then 0 else p.descriptors[n]
  {
    var x := if p.descriptors[n] == TAKES_REMAINDER then 0 else p.descriptors[n];
    assert Counts(p, n + 1) == Counts(p, n) + [x];
    SumAppend(Counts(p, n), x);
  }

  lemma SumTimes(a: nat, b: nat, unit: nat)
    ensures (a + b) * unit == a * unit + b * unit
  {
  }

  lemma RequestIsExact(p: Page, num: nat, k: nat)
    requires p.Valid() && k < num <= MAX_PARTITIONS && FitsIn64(p.units, num)
    ensures Request(p.descriptors[k], Pow10(p.units)) ==
      (if p.descriptors[k] == TAKES_REMAINDER then 0 else p.descriptors[k]) * Pow10(p.units)
  {
    AskedIsExact(p, num, k);
    assert Asked(p, num)[k] == Request(p.descriptors[k], Pow10(p.units));
  }

  lemma {:induction false} AskedByWeight(p: Page, num: nat, n: nat)
    requires p.Valid() && n <= num <= MAX_PARTITIONS && FitsIn64(p.units, num)
    ensures Sum(Asked(p, n)) == Weight(p, n) * Pow10(p.units)
    decreases n
  {
    if n > 0 {
      AskedByWeight(p, num, n - 1);
      OneMorePartition(p, n - 1);
      OneMoreCount(p, n - 1);
      RequestIsExact(p, num, n - 1);
      SumTimes(Weight(p, n - 1), Weight(p, n) - Weight(p, n - 1), Pow10(p.units));
    }
  }

  // What is left to the budget when nothing is scaled.
  predicate Unscaled(v: Volume, p: Page) {
    && v.Valid() && v.Unrecorded() && p.Valid() && FitsIn64(p.units, v.num)
    && Weight(p, v.num) * Pow10(p.units) <= Budget(v.capacity, Count(Remainders(p, v.num)))
  }

  lemma FixedShare(v: Volume, p: Page, k: nat)
    requires Unscaled(v, p) && k < v.num && p.descriptors[k] != TAKES_REMAINDER
    ensures v.Size(p, k) == p.descriptors[k] * Pow10(p.units)
  {
    AskedByWeight(p, v.num, v.num);
    NoOverflow(p, v.num);
    ByThePage(v.capacity, v.num, p, k);
  }

  lemma RestShare(v: Volume, p: Page, k: nat)
    requires Unscaled(v, p) && k < v.num && p.descriptors[k] == TAKES_REMAINDER && Count(Remainders(p, v.num)) == 1
    ensures v.Size(p, k) == v.capacity - Weight(p, v.num) * Pow10(p.units)
  {
    AskedByWeight(p, v.num, v.num);
    NoOverflow(p, v.num);
    ByThePage(v.capacity, v.num, p, k);
  }

  lemma WholeUnits(count: nat, unit: nat)
    requires unit > 0
    ensures count * unit / unit == count
    ensures count <= 0xffff ==> Stored(count * unit, unit) == count
  {
    DivideExactly(count * unit, unit, count);
  }

  // Turns at which nothing changes.
  lemma {:induction false} StaysFrom(v: Volume, p: Page, page: Page, m: nat, n: nat)
    requires v.Valid() && p.Valid() && page.Valid() && m <= n <= v.num && Turns(v, p, m) == page
    requires forall k :: m <= k < n ==> v.Size(page, k) == page.descriptors[k] * Pow10(page.units)
    ensures Turns(v, p, n) == page
    decreases n
  {
    if m < n {
      StaysFrom(v, p, page, m, n - 1);
      WholeUnits(page.descriptors[n - 1], Pow10(page.units));
    }
  }

  lemma SmallerUnit(units: nat, coarser: nat, num: nat)
    requires units <= coarser && FitsIn64(coarser, num)
    ensures FitsIn64(units, num) && Pow10(units) <= Pow10(coarser)
  {
    Pow10Grows(units, coarser);
    MulOrder(0xfffe, Pow10(units), Pow10(coarser));
    MulOrder(num, 0xfffe * Pow10(units), 0xfffe * Pow10(coarser));
  }

  // ----------------------------------------- the unit, and what it decides

  lemma {:induction false} CoarserServes(sizes: seq<nat>, units: nat, coarser: nat)
    requires units <= coarser && Serves(sizes, units)
    ensures Serves(sizes, coarser)
    decreases coarser
  {
    if units < coarser {
      CoarserServes(sizes, units, coarser - 1);
      forall k | 0 <= k < |sizes|
        ensures sizes[k] / Pow10(coarser) <= LARGEST_DESCRIPTOR
      {
        TenthIsLess(sizes[k], Pow10(coarser - 1));
      }
    }
  }

  lemma TenthIsLess(x: nat, unit: nat)
    requires unit > 0
    ensures x / (10 * unit) <= x / unit
  {
    var q := x / (10 * unit);
    assert x == 10 * unit * q + x % (10 * unit);
    assert unit * (10 * q) == 10 * unit * q;
    assert x == unit * (x / unit) + x % unit && unit * (x / unit + 1) == unit * (x / unit) + unit;
    if q > x / unit {
      MulOrder(unit, x / unit + 1, 10 * q);
    }
  }

  // Of a unit that serves, whether a finer one is chosen.
  lemma UnitKept(sizes: seq<nat>, units: nat, was: nat)
    requires Finest(sizes, units) && was <= 15 && Serves(sizes, was)
    ensures units <= was && (units == was <==> was == 0 || !Serves(sizes, was - 1))
  {
    if units < was {
      CoarserServes(sizes, units, was - 1);
    }
  }

  lemma {:induction false} Pow10Split(units: nat, more: nat)
    ensures Pow10(units + more) == Pow10(units) * Pow10(more)
    decreases more
  {
    if more > 0 {
      Pow10Split(units, more - 1);
    }
  }

  // So many of the coarser unit, in the finer one.
  lemma InUnits(count: nat, units: nat, coarser: nat)
    requires units <= coarser
    ensures count * Pow10(coarser) == count * Pow10(coarser - units) * Pow10(units)
    ensures count * Pow10(coarser) / Pow10(units) == count * Pow10(coarser - units)
    ensures units < coarser ==> count * Pow10(coarser - units) >= count * 10
  {
    var many := count * Pow10(coarser - units);
    Pow10Split(units, coarser - units);
    Regroup3(count, Pow10(coarser - units), Pow10(units));
    WholeUnits(many, Pow10(units));
    if units < coarser {
      Pow10Grows(1, coarser - units);
      MulOrder(count, 10, Pow10(coarser - units));
    }
  }

  lemma Regroup3(a: nat, b: nat, c: nat)
    ensures a * (c * b) == a * b * c
  {
  }
  // A volume of which nothing is recorded, with a page that asks for sizes
  // only, all of which it grants.
  predicate Granted(v: Volume, p: Page) {
    Unscaled(v, p) && forall k :: 0 <= k < v.num ==> p.descriptors[k] != TAKES_REMAINDER
  }

  lemma FinerIsGranted(v: Volume, before: Page, page: Page)
    requires Granted(v, before) && page.Valid() && page.units <= before.units
    requires forall k :: 0 <= k < v.num ==> page.descriptors[k] == before.descriptors[k]
    ensures Granted(v, page)
  {
    SmallerUnit(page.units, before.units, v.num);
    assert Counts(page, v.num) == Counts(before, v.num);
    assert Remainders(page, v.num) == Remainders(before, v.num);
    MulOrder(Weight(page, v.num), Pow10(page.units), Pow10(before.units));
  }

  lemma GrantedSizes(v: Volume, p: Page)
    requires Granted(v, p)
    ensures forall k :: 0 <= k < v.num ==> v.Sizes(p)[k] == p.descriptors[k] * Pow10(p.units)
    ensures Serves(v.Sizes(p), p.units)
  {
    forall k | 0 <= k < v.num
      ensures v.Sizes(p)[k] == p.descriptors[k] * Pow10(p.units)
      ensures v.Sizes(p)[k] / Pow10(p.units) <= LARGEST_DESCRIPTOR
    {
      FixedShare(v, p, k);
      WholeUnits(p.descriptors[k], Pow10(p.units));
    }
  }

  // Then only the unit changes, and every partition is told so many of the new
  // unit from then on.
  lemma DescriptorsStay(v: Volume, before: Page, maxPartitions: nat, units: nat)
    requires Granted(v, before) && Finest(v.Sizes(before), units)
    ensures var page := Updated(v, before, maxPartitions, units);
      && units <= before.units && Granted(v, page)
      && forall k :: 0 <= k < v.num ==>
        page.descriptors[k] == before.descriptors[k] && v.Size(page, k) == before.descriptors[k] * Pow10(units)
  {
    GrantedSizes(v, before);
    UnitKept(v.Sizes(before), units, before.units);
    var start := Headed(before, maxPartitions, v.num, units);
    FinerIsGranted(v, before, start);
    GrantedSizes(v, start);
    StaysFrom(v, start, start, 0, v.num);
    var page := Updated(v, before, maxPartitions, units);
    forall k | 0 <= k < v.num
      ensures page.descriptors[k] == before.descriptors[k]
    {
      AtItsTurn(v, start, MAX_PARTITIONS, k);
      AtItsTurn(v, start, v.num, k);
    }
    FinerIsGranted(v, before, page);
    GrantedSizes(v, page);
    assert forall k :: 0 <= k < v.num ==> v.Sizes(page)[k] == v.Size(page, k);
  }

  // More than a tenth of the largest descriptor keeps the unit.
  lemma KeptByLarge(v: Volume, p: Page)
    requires Granted(v, p) && p.units > 0
    ensures Serves(v.Sizes(p), p.units - 1) <==> forall k :: 0 <= k < v.num ==> p.descriptors[k] <= 6553
  {
    GrantedSizes(v, p);
    forall k | 0 <= k < v.num
      ensures v.Sizes(p)[k] / Pow10(p.units - 1) == 10 * p.descriptors[k]
    {
      InUnits(p.descriptors[k], p.units - 1, p.units);
      assert Pow10(1) == 10;
    }
    if Serves(v.Sizes(p), p.units - 1) {
      forall k | 0 <= k < v.num
        ensures p.descriptors[k] <= 6553
      {
        assert v.Sizes(p)[k] / Pow10(p.units - 1) <= LARGEST_DESCRIPTOR;
      }
    }
  }

  lemma SameNumber(count: nat, units: nat, was: nat)
    requires units <= was
    ensures Reported(count * Pow10(was), Pow10(units)) == count <==> units == was || count == 0
  {
    InUnits(count, units, was);
  }

  // So the report is right exactly when the unit stays, which some large
  // descriptor must see to, or there is nothing to report.
  lemma GrantedReported(v: Volume, before: Page, maxPartitions: nat, units: nat)
    requires Granted(v, before) && Finest(v.Sizes(before), units)
    ensures Reports(Updated(v, before, maxPartitions, units), v.Sizes(before)) <==>
      before.units == 0 || (exists k :: 0 <= k < v.num && before.descriptors[k] > 6553) ||
      (forall k :: 0 <= k < v.num ==> before.descriptors[k] == 0)
  {
    var page, sizes := Updated(v, before, maxPartitions, units), v.Sizes(before);
    DescriptorsStay(v, before, maxPartitions, units);
    GrantedSizes(v, before);
    UnitKept(sizes, units, before.units);
    if before.units > 0 {
      KeptByLarge(v, before);
    }
    forall k | 0 <= k < v.num
      ensures page.descriptors[k] == Reported(sizes[k], Pow10(units)) <==>
        units == before.units || before.descriptors[k] == 0
    {
      SameNumber(before.descriptors[k], units, before.units);
    }
    assert Reports(page, sizes) <==>
      forall k :: 0 <= k < v.num ==> page.descriptors[k] == Reported(sizes[k], Pow10(units));
  }

  // ------------------------------------- one partition takes the remainder

  // Nothing is recorded, nothing is scaled, and exactly partition j takes
  // what is left.
  predicate OneRest(v: Volume, p: Page, j: nat) {
    && Unscaled(v, p) && j < v.num
    && forall k :: 0 <= k < v.num ==> (p.descriptors[k] == TAKES_REMAINDER <==> k == j)
  }

  lemma {:induction false} OneCounted(rest: seq<bool>, j: nat)
    requires j < |rest| && forall k :: 0 <= k < |rest| ==> (rest[k] <==> k == j)
    ensures Count(rest) == 1
  {
    var n := |rest| - 1;
    if j == n {
      NoneCounted(rest[..n]);
    } else {
      OneCounted(rest[..n], j);
    }
  }

  lemma {:induction false} ZeroSum(s: seq<nat>)
    requires forall k :: 0 <= k < |s| ==> s[k] == 0
    ensures Sum(s) == 0
  {
    if s != [] {
      ZeroSum(s[..|s| - 1]);
    }
  }

  lemma {:induction false} SumWith(s: seq<nat>, j: nat, x: nat)
    requires j < |s| && s[j] == 0
    ensures Sum(s[j := x]) == Sum(s) + x
  {
    var n := |s| - 1;
    if j == n {
      assert s[j := x][..n] == s[..n];
    } else {
      assert s[j := x][..n] == s[..n][j := x];
      SumWith(s[..n], j, x);
    }
  }

  predicate OnlyRest(num: nat, p: Page, j: nat) {
    && p.Valid() && j < num <= MAX_PARTITIONS && p.descriptors[j] == TAKES_REMAINDER
    && forall k :: 0 <= k < num && k != j ==> p.descriptors[k] == 0
  }

  lemma RestTakesAll(capacity: nat, num: nat, p: Page, j: nat)
    requires 2 <= num && OnlyRest(num, p, j)
    ensures PageShare(capacity, num, Some(p), j) == capacity
  {
    ZeroSum(Asked(p, num));
    OneCounted(Remainders(p, num), j);
    ByThePage(capacity, num, p, j);
  }

  // With nothing beside it the remainder is reported right, whatever the units.
  lemma RestAlone(v: Volume, before: Page, maxPartitions: nat, units: nat, j: nat)
    requires v.Valid() && v.Unrecorded() && before.Valid() && Finest(v.Sizes(before), units)
    requires OnlyRest(v.num, before, j)
    ensures Reports(Updated(v, before, maxPartitions, units), v.Sizes(before))
  {
    var start := Headed(before, maxPartitions, v.num, units);
    var page, sizes := Updated(v, before, maxPartitions, units), v.Sizes(before);
    forall k | 0 <= k < v.num
      ensures page.descriptors[k] == Reported(sizes[k], Pow10(units))
    {
      if k != j {
        SettledIsRight(v, before, maxPartitions, units, k);
      } else {
        AtItsTurn(v, start, MAX_PARTITIONS, j);
        ZerosStay(v, start, j, j);
        RestTakesAll(v.capacity, v.num, before, j);
        RestTakesAll(v.capacity, v.num, Turns(v, start, j), j);
      }
    }
  }

  lemma {:induction false} ZerosStay(v: Volume, p: Page, j: nat, n: nat)
    requires v.Valid() && v.Unrecorded() && OnlyRest(v.num, p, j) && n <= j
    ensures OnlyRest(v.num, Turns(v, p, n), j)
    decreases n
  {
    if n > 0 {
      ZerosStay(v, p, j, n - 1);
      NothingAskedNothingGot(v.capacity, v.num, Turns(v, p, n - 1), n - 1);
    }
  }

  // A remainder beside other partitions, worked out in a finer unit than
  // before, is reported too large, in 16 bits too.
  lemma TooMuchIsLeft(capacity: nat, weight: nat, units: nat, was: nat)
    requires units < was && 0 < weight && weight * Pow10(was) <= capacity / 2
    requires (capacity - weight * Pow10(was)) / Pow10(units) <= LARGEST_DESCRIPTOR
    ensures weight * Pow10(units) <= capacity
    ensures Stored(capacity - weight * Pow10(units), Pow10(units)) !=
      Reported(capacity - weight * Pow10(was), Pow10(units))
  {
    var unit, many := Pow10(units), weight * Pow10(was - units);
    InUnits(weight, units, was);
    assert many * unit == weight * Pow10(was);
    Larger(capacity - many * unit, unit, many, weight);
    MulOrder(unit, weight, many);
  }

  lemma Larger(left: nat, unit: nat, many: nat, few: nat)
    requires unit > 0 && 0 < few && 10 * few <= many && many * unit <= left && left / unit <= LARGEST_DESCRIPTOR
    ensures few * unit <= many * unit
    ensures Stored(left + many * unit - few * unit, unit) != Reported(left, unit)
  {
    var a, g := left / unit, many - few;
    assert left == unit * a + left % unit;
    SumTimes(g, few, unit);
    assert unit * (a + g) == unit * a + g * unit;
    DivideExactly(left + g * unit, unit, a + g);
    DivOrder(many * unit, left, unit);
    WholeUnits(many, unit);
  }

  lemma FinerRest(v: Volume, before: Page, page: Page, j: nat)
    requires OneRest(v, before, j) && page.Valid() && page.units <= before.units
    requires page.descriptors == before.descriptors
    ensures OneRest(v, page, j) && Weight(page, v.num) == Weight(before, v.num)
  {
    SmallerUnit(page.units, before.units, v.num);
    assert Counts(page, v.num) == Counts(before, v.num);
    assert Remainders(page, v.num) == Remainders(before, v.num);
    MulOrder(Weight(page, v.num), Pow10(page.units), Pow10(before.units));
  }

  lemma RestSizes(v: Volume, p: Page, j: nat)
    requires OneRest(v, p, j)
    ensures Weight(p, v.num) * Pow10(p.units) <= v.capacity / 2
    ensures v.Size(p, j) == v.capacity - Weight(p, v.num) * Pow10(p.units)
    ensures forall k :: 0 <= k < v.num && k != j ==> v.Size(p, k) == p.descriptors[k] * Pow10(p.units)
  {
    OneCounted(Remainders(p, v.num), j);
    RestShare(v, p, j);
    forall k | 0 <= k < v.num && k != j
      ensures v.Size(p, k) == p.descriptors[k] * Pow10(p.units)
    {
      FixedShare(v, p, k);
    }
  }

  // Up to the remainder's turn nothing changes.
  lemma UntilRest(v: Volume, before: Page, maxPartitions: nat, units: nat, j: nat)
    requires OneRest(v, before, j) && units <= before.units
    ensures var start := Headed(before, maxPartitions, v.num, units);
      && OneRest(v, start, j) && Weight(start, v.num) == Weight(before, v.num)
      && forall k :: 0 <= k <= j ==> Turns(v, start, k) == start
  {
    var start := Headed(before, maxPartitions, v.num, units);
    FinerRest(v, before, start, j);
    RestSizes(v, start, j);
    forall k | 0 <= k <= j
      ensures Turns(v, start, k) == start
    {
      StaysFrom(v, start, start, 0, k);
    }
  }

  // The page once the remainder has become a size.
  lemma RestWritten(v: Volume, p: Page, j: nat, q: nat) returns (page: Page)
    requires OneRest(v, p, j) && q <= LARGEST_DESCRIPTOR
    requires (Weight(p, v.num) + q) * Pow10(p.units) <= v.capacity
    ensures page == p.(descriptors := p.descriptors[j := q]) && Granted(v, page)
  {
    page := p.(descriptors := p.descriptors[j := q]);
    assert Counts(page, v.num) == Counts(p, v.num)[j := q];
    SumWith(Counts(p, v.num), j, q);
    NobodyTakesRest(page, v.num);
  }

  lemma RoomForAll(capacity: nat, weight: nat, unit: nat)
    requires unit > 0 && weight > 0 && weight * unit <= capacity / 2
    ensures (weight + Reported(capacity - weight * unit, unit)) * unit <= capacity
  {
    var size := capacity - weight * unit;
    MulOrder(unit, 1, weight);
    AtLeastOne(size, unit);
    assert size == unit * (size / unit) + size % unit;
    SumTimes(weight, Reported(size, unit), unit);
  }

  // After the remainder's turn, with the unit kept beside partitions that ask
  // for something: the size it was told, and room for everyone.
  lemma AfterRest(v: Volume, start: Page, j: nat) returns (next: Page)
    requires OneRest(v, start, j) && Weight(start, v.num) > 0 && Turns(v, start, j) == start
    requires v.Size(start, j) / Pow10(start.units) <= LARGEST_DESCRIPTOR
    ensures next == start.(descriptors := start.descriptors[j := Reported(v.Size(start, j), Pow10(start.units))])
    ensures Granted(v, next) && Turns(v, start, j + 1) == next
  {
    RestSizes(v, start, j);
    RoomForAll(v.capacity, Weight(start, v.num), Pow10(start.units));
    next := RestWritten(v, start, j, Reported(v.Size(start, j), Pow10(start.units)));
  }

  lemma {:induction false} AfterRestStays(v: Volume, start: Page, next: Page, j: nat, k: nat)
    requires v.Valid() && v.Unrecorded() && start.Valid() && j < k < v.num && Granted(v, next)
    requires next == start.(descriptors := next.descriptors) && Turns(v, start, j + 1) == next
    ensures Turns(v, start, MAX_PARTITIONS).descriptors[k] == next.descriptors[k]
  {
    GrantedSizes(v, next);
    assert forall i :: 0 <= i < v.num ==> v.Sizes(next)[i] == v.Size(next, i);
    StaysFrom(v, start, next, j + 1, k);
    AtItsTurn(v, start, MAX_PARTITIONS, k);
    WholeUnits(next.descriptors[k], Pow10(next.units));
  }

  // With the unit kept, beside partitions that ask for something.
  lemma RestKept(v: Volume, before: Page, maxPartitions: nat, j: nat)
    requires OneRest(v, before, j) && Weight(before, v.num) > 0 && Finest(v.Sizes(before), before.units)
    ensures Reports(Updated(v, before, maxPartitions, before.units), v.Sizes(before))
  {
    var units := before.units;
    var start := Headed(before, maxPartitions, v.num, units);
    var page, sizes := Updated(v, before, maxPartitions, units), v.Sizes(before);
    UntilRest(v, before, maxPartitions, units, j);
    RestSizes(v, before, j);
    RestSizes(v, start, j);
    assert sizes[j] == v.Size(start, j);
    var next := AfterRest(v, start, j);
    forall k | 0 <= k < v.num
      ensures page.descriptors[k] == Reported(sizes[k], Pow10(units))
    {
      AtItsTurn(v, start, MAX_PARTITIONS, k);
      if k != j {
        WholeUnits(before.descriptors[k], Pow10(units));
        SameNumber(before.descriptors[k], units, units);
        if k > j {
          AfterRestStays(v, start, next, j, k);
        }
      }
    }
  }

  // A remainder partition, with a unit that serves for all: the report is
  // right exactly when no finer unit serves, or nothing is beside it.
  lemma RestReported(v: Volume, before: Page, maxPartitions: nat, units: nat, j: nat)
    requires OneRest(v, before, j) && Finest(v.Sizes(before), units) && Serves(v.Sizes(before), before.units)
    ensures Reports(Updated(v, before, maxPartitions, units), v.Sizes(before)) <==>
      before.units == 0 || !Serves(v.Sizes(before), before.units - 1) ||
      (forall k :: 0 <= k < v.num && k != j ==> before.descriptors[k] == 0)
  {
    UnitKept(v.Sizes(before), units, before.units);
    if forall k :: 0 <= k < v.num && k != j ==> before.descriptors[k] == 0 {
      RestAlone(v, before, maxPartitions, units, j);
    } else {
      var i :| 0 <= i < v.num && i != j && before.descriptors[i] != 0;
      PartOfSum(Counts(before, v.num), i);
      if units == before.units {
        RestKept(v, before, maxPartitions, j);
      } else {
        RestMissed(v, before, maxPartitions, units, j);
      }
    }
  }

  lemma RestMissed(v: Volume, before: Page, maxPartitions: nat, units: nat, j: nat)
    requires OneRest(v, before, j) && Weight(before, v.num) > 0
    requires Finest(v.Sizes(before), units) && units < before.units
    ensures !Reports(Updated(v, before, maxPartitions, units), v.Sizes(before))
  {
    var start := Headed(before, maxPartitions, v.num, units);
    UntilRest(v, before, maxPartitions, units, j);
    RestSizes(v, before, j);
    RestSizes(v, start, j);
    assert v.Sizes(before)[j] / Pow10(units) <= LARGEST_DESCRIPTOR;
    TooMuchIsLeft(v.capacity, Weight(before, v.num), units, before.units);
    AtItsTurn(v, start, MAX_PARTITIONS, j);
  }

  // ---------------------------------------------------------- some volumes

  // Two partitions of two units each.
  predicate TwoOfTwo(v: Volume, p: Page) {
    && v == Volume(1_000_000_000_000, 2, [0, 0, 0, 0]) && p.Valid() && p.units <= 9
    && p.descriptors[0] == 2 && p.descriptors[1] == 2
  }

  lemma TwoOfTwoGranted(v: Volume, p: Page)
    requires TwoOfTwo(v, p)
    ensures Granted(v, p)
  {
    WhenItFits(p.units, 2);
    Pow10Grows(p.units, 9);
    assert Pow10(3) == 1000 && Pow10(6) == 1_000_000 && Pow10(9) == 1_000_000_000;
    assert Counts(p, 2) == [2, 2] && [2, 2][..1] == [2] && [2][..0] == [];
    NobodyTakesRest(p, 2);
  }

  // They are counted in a unit four powers finer.
  lemma FourFiner(v: Volume, p: Page, units: nat)
    requires TwoOfTwo(v, p) && Finest(v.Sizes(p), units)
    ensures units == if p.units > 4 then p.units - 4 else 0
  {
    TwoOfTwoGranted(v, p);
    GrantedSizes(v, p);
    UnitKept(v.Sizes(p), units, p.units);
    var finest := if p.units > 4 then p.units - 4 else 0;
    assert Pow10(4) == 10_000 && Pow10(5) == 100_000;
    InUnits(2, finest, p.units);
    Pow10Grows(p.units - finest, 4);
    assert Serves(v.Sizes(p), finest);
    if finest > 0 {
      InUnits(2, finest - 1, p.units);
      assert v.Sizes(p)[0] / Pow10(finest - 1) > LARGEST_DESCRIPTOR;
      if Serves(v.Sizes(p), units) && units < finest {
        CoarserServes(v.Sizes(p), units, finest - 1);
      }
    }
  }

  method LoadOnce(m: Medium, mode: ModePage) returns (told: nat)
    requires m.Valid() && TwoOfTwo(VolumeIn(m), mode.page)
    modifies mode
    ensures TwoOfTwo(VolumeIn(m), mode.page)
    ensures mode.page.units == if old(mode.page.units) > 4 then old(mode.page.units) - 4 else 0
    ensures told == 2 * Pow10(mode.page.units)
    ensures !Reports(mode.page, VolumeIn(m).Sizes(old(mode.page))) <==> old(mode.page.units) > 0
  {
    ghost var v, before := VolumeIn(m), mode.page;
    UpdatePage(m, mode);
    FourFiner(v, before, mode.page.units);
    TwoOfTwoGranted(v, before);
    DescriptorsStay(v, before, m.maxPartitions, mode.page.units);
    GrantedReported(v, before, m.maxPartitions, mode.page.units);
    told := m.PartitionCapacity(Some(mode.page), 0);
  }

  // A medium of a terabyte of which nothing is recorded, with the page the drive
  // starts with: each load makes the partitions smaller.
  method LoadedThreeTimes() returns (told: seq<nat>)
    ensures told == [2_000_000_000, 200_000, 20, 2]
  {
    var m := new Medium(1_000_000_000_000, 4);
    m.numPartitions := 2;
    var mode := new ModePage(Page(3, 3, 9, [2, 2, 2, 2]));
    assert Pow10(3) == 1000 && Pow10(5) == 100_000 && Pow10(9) == 1_000_000_000;
    TwoOfTwoGranted(VolumeIn(m), mode.page);
    FixedShare(VolumeIn(m), mode.page, 0);
    var first := m.PartitionCapacity(Some(mode.page), 0);
    var second := LoadOnce(m, mode);
    var third := LoadOnce(m, mode);
    var fourth := LoadOnce(m, mode);
    told := [first, second, third, fourth];
  }

  lemma TwoSum(a: nat, b: nat)
    ensures Sum([a, b]) == a + b
  {
    assert [a, b][..1] == [a];
    assert [a][..0] == [];
    assert Sum([a]) == a;
  }

  lemma ThreeSum(a: nat, b: nat, c: nat)
    ensures Sum([a, b, c]) == a + b + c
  {
    assert [a, b, c][..2] == [a, b];
    TwoSum(a, b);
  }

  lemma TwoCount(a: bool, b: bool)
    ensures Count([a, b]) == (if a then 1 else 0) + (if b then 1 else 0)
  {
    assert [a, b][..1] == [a];
    assert [a][..0] == [];
    assert Count([a]) == if a then 1 else 0;
  }

  lemma ThreeCount(a: bool, b: bool, c: bool)
    ensures Count([a, b, c]) == (if a then 1 else 0) + (if b then 1 else 0) + (if c then 1 else 0)
  {
    assert [a, b, c][..2] == [a, b];
    TwoCount(a, b);
  }

  lemma ByRequests(v: Volume, p: Page, asked: seq<nat>, rest: seq<bool>, k: nat)
    requires v.Valid() && v.Unrecorded() && p.Valid() && k < v.num
    requires asked == Asked(p, v.num) && rest == Remainders(p, v.num) && Sum(asked) < TWO_64
    ensures v.Size(p, k) == Share(v.capacity, asked, rest, Sum(asked), k)
  {
    ByThePage(v.capacity, v.num, p, k);
    WrapSmall(Sum(asked));
  }

  // Two turns on two partitions of which nothing is recorded.
  lemma TwoTurns(v: Volume, p: Page, first: nat, second: nat)
    requires v.Valid() && v.num == 2 && p.Valid()
    requires first == Stored(v.Size(p, 0), Pow10(p.units))
    requires second == Stored(v.Size(p.(descriptors := p.descriptors[0 := first]), 1), Pow10(p.units))
    ensures Turns(v, p, MAX_PARTITIONS).descriptors == [first, second, 0, 0]
  {
    assert Turns(v, p, 1) == p.(descriptors := p.descriptors[0 := first]);
    AtItsTurn(v, p, MAX_PARTITIONS, 0);
    AtItsTurn(v, p, MAX_PARTITIONS, 1);
    AtItsTurn(v, p, MAX_PARTITIONS, 2);
    AtItsTurn(v, p, MAX_PARTITIONS, 3);
  }

  // Two partitions that ask for twice the medium: each would get half, but the
  // second is scaled beside a first that was cut already.
  lemma ScaledTwice()
    ensures var v, p := Volume(60_000, 2, [0, 0, 0, 0]), Page(3, 1, 0, [60_000, 60_000, 0, 0]);
      v.Sizes(p) == [30_000, 30_000] && Updated(v, p, 4, 0).descriptors == [30_000, 40_000, 0, 0]
  {
    var v, p := Volume(60_000, 2, [0, 0, 0, 0]), Page(3, 1, 0, [60_000, 60_000, 0, 0]);
    var q := p.(descriptors := p.descriptors[0 := 30_000]);
    assert Pow10(0) == 1;
    TwoSum(60_000, 60_000);
    TwoSum(30_000, 60_000);
    TwoCount(false, false);
    ByRequests(v, p, [60_000, 60_000], [false, false], 0);
    ByRequests(v, p, [60_000, 60_000], [false, false], 1);
    ByRequests(v, q, [30_000, 60_000], [false, false], 1);
    assert Headed(p, 4, 2, 0) == p;
    TwoTurns(v, p, 30_000, 40_000);
  }

  // Ten, and two that share the rest: once the first has its 45 there are more
  // than half asked for, and the second is told half the medium.
  lemma TwoRests()
    ensures var v, p := Volume(100, 3, [0, 0, 0, 0]), Page(3, 2, 0, [10, TAKES_REMAINDER, TAKES_REMAINDER, 0]);
      v.Sizes(p) == [10, 45, 45] && Updated(v, p, 4, 0).descriptors == [10, 45, 50, 0]
  {
    var v, p := Volume(100, 3, [0, 0, 0, 0]), Page(3, 2, 0, [10, TAKES_REMAINDER, TAKES_REMAINDER, 0]);
    var q := p.(descriptors := [10, 45, TAKES_REMAINDER, 0]);
    assert Pow10(0) == 1;
    ThreeSum(10, 0, 0);
    ThreeSum(10, 45, 0);
    ThreeCount(false, true, true);
    ThreeCount(false, false, true);
    ByRequests(v, p, [10, 0, 0], [false, true, true], 0);
    ByRequests(v, p, [10, 0, 0], [false, true, true], 1);
    ByRequests(v, p, [10, 0, 0], [false, true, true], 2);
    ByRequests(v, q, [10, 45, 0], [false, false, true], 2);
    assert Headed(p, 4, 3, 0) == p;
    assert Turns(v, p, 1) == p;
    assert Turns(v, p, 2) == q;
    assert Turns(v, p, 3).descriptors == [10, 45, 50, 0];
  }

  // Five bytes and the remainder of a million and five, which needs a coarser
  // unit: the five become five hundred, and are missing from the remainder.
  lemma FiveOfCoarser()
    ensures var v, p := Volume(1_000_005, 2, [0, 0, 0, 0]), Page(3, 1, 0, [5, TAKES_REMAINDER, 0, 0]);
      && v.Sizes(p) == [5, 1_000_000] && Finest(v.Sizes(p), 2)
      && Updated(v, p, 4, 2).descriptors == [5, 9995, 0, 0]
  {
    var v, p := Volume(1_000_005, 2, [0, 0, 0, 0]), Page(3, 1, 0, [5, TAKES_REMAINDER, 0, 0]);
    var start := Headed(p, 4, 2, 2);
    assert Pow10(0) == 1 && Pow10(1) == 10 && Pow10(2) == 100;
    TwoSum(5, 0);
    TwoSum(500, 0);
    TwoCount(false, true);
    ByRequests(v, p, [5, 0], [false, true], 0);
    ByRequests(v, p, [5, 0], [false, true], 1);
    ByRequests(v, start, [500, 0], [false, true], 0);
    ByRequests(v, start, [500, 0], [false, true], 1);
    var sizes := v.Sizes(p);
    assert sizes == [5, 1_000_000];
    assert sizes[1] / Pow10(0) > LARGEST_DESCRIPTOR && sizes[1] / Pow10(1) > LARGEST_DESCRIPTOR;
    assert start.descriptors[0 := 5] == start.descriptors;
    TwoTurns(v, start, 5, 9995);
  }
}
