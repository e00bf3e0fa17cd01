// Dividing a medium between partitions by the Medium Partition mode page
// (section 8.3.4 of SSC-3), and reporting the division back in that page.

module Geometry {
  import opened Basics

  const TAKES_REMAINDER: nat := 0xffff

  // The fields of the page that matter: additional partitions allowed and
  // defined, the power of ten that sizes are counted in, one 16 bit
  // descriptor per partition.
  datatype Page = Page(maxAdditional: nat, additional: nat, units: nat, descriptors: seq<nat>) {
    predicate Valid() {
      units <= 15 && |descriptors| == MAX_PARTITIONS && forall k :: 0 <= k < MAX_PARTITIONS ==> descriptors[k] <= 0xffff
    }
  }

  function Pow10(u: nat): (r: nat)
    ensures r >= 1
  {
    if u == 0 then 1 else 10 * Pow10(u - 1)
  }

  lemma PowersOfTen()
    ensures Pow10(13) == 10_000_000_000_000 && Pow10(14) == 100_000_000_000_000 && Pow10(15) == 1_000_000_000_000_000
  {
    assert Pow10(4) == 10_000;
    assert Pow10(8) == 100_000_000;
    assert Pow10(12) == 1_000_000_000_000;
  }

  lemma {:induction false} Pow10Grows(u: nat, v: nat)
    requires u <= v
    ensures Pow10(u) <= Pow10(v)
    decreases v
  {
    if u < v {
      Pow10Grows(u, v - 1);
    }
  }

  function Sum(s: seq<nat>): nat {
    if s == [] then 0 else Sum(s[..|s| - 1]) + s[|s| - 1]
  }

  lemma SumAppend(s: seq<nat>, x: nat)
    ensures Sum(s + [x]) == Sum(s) + x
  {
    assert (s + [x])[..|s|] == s;
  }

  function Count(r: seq<bool>): nat {
    if r == [] then 0 else Count(r[..|r| - 1]) + (if r[|r| - 1] then 1 else 0)
  }

  lemma CountAppend(r: seq<bool>, x: bool)
    ensures Count(r + [x]) == Count(r) + if x then 1 else 0
  {
    assert (r + [x])[..|r|] == r;
  }

  // ------------------------------------------------------- the division

  // Arithmetic in 64 bits.
  function Wrap(x: nat): nat {
    x % TWO_64
  }

  lemma WrapAdd(a: nat, b: nat)
    ensures Wrap(Wrap(a) + b) == Wrap(a + b)
  {
  }

  function Scaled(asked: nat, budget: nat, fixed: nat): nat
    requires fixed > 0
  {
    asked * budget / fixed
  }

  function Request(descriptor: nat, unit: nat): nat {
    if descriptor == TAKES_REMAINDER then 0 else Wrap(descriptor * unit)
  }

  // What each of the first n partitions asks for; a remainder partition asks
  // for nothing. Products and sums are kept in 64 bits.
  function Asked(p: Page, n: nat): (r: seq<nat>)
    requires p.Valid() && n <= MAX_PARTITIONS
    ensures |r| == n
  {
    seq(n, k requires 0 <= k < n => Request(p.descriptors[k], Pow10(p.units)))
  }

  function Remainders(p: Page, n: nat): (r: seq<bool>)
    requires p.Valid() && n <= MAX_PARTITIONS
    ensures |r| == n
  {
    seq(n, k requires 0 <= k < n => p.descriptors[k] == TAKES_REMAINDER)
  }

  // The division itself, of a medium between partitions that ask for a size
  // and partitions that take the remainder.
  function Budget(medium: nat, count: nat): (r: nat)
    ensures r <= medium
  {
    if count > 0 then medium / 2 else medium
  }

  function Each(left: nat, count: nat): nat
    requires count > 0
  {
    left / count
  }

  function Share(medium: nat, asked: seq<nat>, rest: seq<bool>, fixed: nat, k: nat): nat
    requires k < |asked| == |rest|
  {
    var budget := Budget(medium, Count(rest));
    if rest[k] then
      CountPositive(rest, k);
      Each(medium - (if fixed > budget then budget else fixed), Count(rest))
    else if fixed > budget then Scaled(asked[k], budget, fixed)
    else asked[k]
  }

  lemma {:induction false} CountPositive(rest: seq<bool>, k: nat)
    requires k < |rest| && rest[k]
    ensures Count(rest) > 0
  {
    var n := |rest| - 1;
    if k < n {
      CountPositive(rest[..n], k);
    }
  }

  function PageShare(medium: nat, num: nat, page: Option<Page>, partition: int): nat
    requires page.Some? ==> page.value.Valid()
    requires 1 <= num <= MAX_PARTITIONS
  {
    if partition < 0 || partition >= num then 0
    else if num == 1 then medium
    else if page.None? then medium / num
    else
      var asked, rest := Asked(page.value, num), Remainders(page.value, num);
      Share(medium, asked, rest, Wrap(Sum(asked)), partition)
  }

  // medium_partition_capacity_from_mode_page; the scaled sizes are computed
  // in whole numbers.
  method CapacityFromPage(medium: nat, numPartitions: nat, page: Option<Page>, partition: int) returns (r: nat)
    requires numPartitions <= MAX_PARTITIONS
    requires page.Some? ==> page.value.Valid()
    ensures r == PageShare(medium, if numPartitions == 0 then 1 else numPartitions, page, partition)
  {
    var num := if numPartitions == 0 then 1 else numPartitions;
    if partition < 0 || partition >= num {
      r := 0;
    } else if num == 1 {
      r := medium;
    } else if page.None? {
      r := medium / num;
    } else {
      r := Divide(medium, num, page.value, partition);
    }
  }

  method Divide(medium: nat, num: nat, p: Page, partition: nat) returns (r: nat)
    requires p.Valid() && partition < num <= MAX_PARTITIONS
    ensures var asked, rest := Asked(p, num), Remainders(p, num);
      r == Share(medium, asked, rest, Wrap(Sum(asked)), partition)
  {
    var size := new nat[MAX_PARTITIONS];
    var remainder := new bool[MAX_PARTITIONS];
    var unit := Unit(p.units);
    var remainderCount, fixed := ReadDescriptors(p, unit, num, size, remainder);
    ghost var asked, rest := Asked(p, num), Remainders(p, num);
    assert size[partition] == size[..num][partition] && remainder[partition] == remainder[..num][partition];
    var budget := Budget(medium, remainderCount);
    if fixed > budget {
      Scale(num, size, remainder, budget, fixed);
      fixed := budget;
    }
    if remainder[partition] {
      CountPositive(rest, partition);
      r := Each(medium - fixed, remainderCount);
    } else {
      r := size[partition];
    }
  }

  method Unit(count: nat) returns (unit: nat)
    ensures unit == Pow10(count)
  {
    unit := 1;
    var units := count;
    while units > 0
      invariant 0 <= units <= count && unit == Pow10(count - units)
    {
      unit := unit * 10;
      units := units - 1;
    }
  }

  // What each descriptor asks for.
  method ReadDescriptors(p: Page, unit: nat, num: nat, size: array<nat>, remainder: array<bool>)
    returns (remainderCount: nat, fixed: nat)
    requires p.Valid() && num <= MAX_PARTITIONS == size.Length == remainder.Length && unit == Pow10(p.units)
    modifies size, remainder
    ensures size[..num] == Asked(p, num) && remainder[..num] == Remainders(p, num)
    ensures remainderCount == Count(Remainders(p, num)) && fixed == Wrap(Sum(Asked(p, num)))
  {
    remainderCount, fixed := 0, 0;
    for k := 0 to num
      invariant size[..k] == Asked(p, k) && remainder[..k] == Remainders(p, k)
      invariant remainderCount == Count(Remainders(p, k)) && fixed == Wrap(Sum(Asked(p, k)))
    {
      OneMorePartition(p, k);
      WrapAdd(Sum(Asked(p, k)), Request(p.descriptors[k], unit));
      size[k] := Request(p.descriptors[k], unit);
      remainder[k] := p.descriptors[k] == TAKES_REMAINDER;
      if remainder[k] {
        remainderCount := remainderCount + 1;
      } else {
        fixed := Wrap(fixed + size[k]);
      }
    }
  }

  lemma OneMorePartition(p: Page, k: nat)
    requires p.Valid() && k < MAX_PARTITIONS
    ensures var request, rest := Request(p.descriptors[k], Pow10(p.units)), p.descriptors[k] == TAKES_REMAINDER;
      && Asked(p, k + 1) == Asked(p, k) + [request] && Remainders(p, k + 1) == Remainders(p, k) + [rest]
      && Count(Remainders(p, k + 1)) == Count(Remainders(p, k)) + (if rest then 1 else 0)
      && Sum(Asked(p, k + 1)) == Sum(Asked(p, k)) + request && (rest ==> request == 0)
  {
    var request, rest := Request(p.descriptors[k], Pow10(p.units)), p.descriptors[k] == TAKES_REMAINDER;
    AskedMore(p, k);
    SumAppend(Asked(p, k), request);
    CountAppend(Remainders(p, k), rest);
  }

  lemma AskedMore(p: Page, k: nat)
    requires p.Valid() && k < MAX_PARTITIONS
    ensures Asked(p, k + 1) == Asked(p, k) + [Request(p.descriptors[k], Pow10(p.units))]
    ensures Remainders(p, k + 1) == Remainders(p, k) + [p.descriptors[k] == TAKES_REMAINDER]
  {
  }

  // The sizes asked for are brought down to the budget.
  method Scale(num: nat, size: array<nat>, remainder: array<bool>, budget: nat, fixed: nat)
    requires num <= size.Length == remainder.Length && fixed > 0
    modifies size
    ensures forall k :: 0 <= k < num ==>
      size[k] == if remainder[k] then old(size[k]) else Scaled(old(size[k]), budget, fixed)
  {
    for k := 0 to num
      invariant forall j :: 0 <= j < k ==>
        size[j] == if remainder[j] then old(size[j]) else Scaled(old(size[j]), budget, fixed)
      invariant forall j :: k <= j < size.Length ==> size[j] == old(size[j])
    {
      if !remainder[k] {
        size[k] := Scaled(size[k], budget, fixed);
      }
    }
  }

  // Descriptors and units for which 64 bits are enough.
  predicate FitsIn64(units: nat, num: nat) {
    num * (0xfffe * Pow10(units)) < TWO_64
  }

  lemma WhenItFits(units: nat, num: nat)
    requires units <= 15 && 2 <= num <= MAX_PARTITIONS
    ensures FitsIn64(units, num) <==> units <= 13 || (units == 14 && num == 2)
  {
    PowersOfTen();
    if units <= 13 {
      Pow10Grows(units, 13);
    } else if units == 14 {
    } else {
      assert units == 15;
    }
  }

  lemma {:induction false} SumBelow(s: seq<nat>, m: nat)
    requires forall k :: 0 <= k < |s| ==> s[k] <= m
    ensures Sum(s) <= |s| * m
  {
    if s != [] {
      SumBelow(s[..|s| - 1], m);
      assert |s| * m == (|s| - 1) * m + m;
    }
  }

  // Then every request and their sum are exact.
  lemma NoOverflow(p: Page, num: nat)
    requires p.Valid() && num <= MAX_PARTITIONS && FitsIn64(p.units, num)
    ensures forall k :: 0 <= k < num && p.descriptors[k] != TAKES_REMAINDER ==>
      Asked(p, num)[k] == p.descriptors[k] * Pow10(p.units)
    ensures Sum(Asked(p, num)) < TWO_64
  {
    var m := 0xfffe * Pow10(p.units);
    forall k | 0 <= k < num
      ensures Asked(p, num)[k] <= m
      ensures p.descriptors[k] != TAKES_REMAINDER ==> Asked(p, num)[k] == p.descriptors[k] * Pow10(p.units)
    {
      if p.descriptors[k] != TAKES_REMAINDER {
        ExactRequest(p.descriptors[k], Pow10(p.units), num);
      }
    }
    SumBelow(Asked(p, num), m);
  }

  lemma ExactRequest(descriptor: nat, unit: nat, num: nat)
    requires descriptor <= 0xfffe && num > 0 && num * (0xfffe * unit) < TWO_64
    ensures Request(descriptor, unit) == descriptor * unit <= 0xfffe * unit
  {
    MulOrder(unit, descriptor, 0xfffe);
    MulOrder(0xfffe * unit, 1, num);
    WrapSmall(descriptor * unit);
  }

  // ------------------------------------------- what the division promises

  function Shares(medium: nat, asked: seq<nat>, rest: seq<bool>): (r: seq<nat>)
    requires |asked| == |rest|
    ensures |r| == |asked|
  {
    seq(|asked|, k requires 0 <= k < |asked| => Share(medium, asked, rest, Sum(asked), k))
  }

  // Each partition's share when remainder partitions get each.
  function Dealt(asked: seq<nat>, rest: seq<bool>, budget: nat, fixed: nat, each: nat): (r: seq<nat>)
    requires |asked| == |rest|
    ensures |r| == |asked|
  {
    seq(|asked|, k requires 0 <= k < |asked| =>
      if rest[k] then each else if fixed > budget then Scaled(asked[k], budget, fixed) else asked[k])
  }

  predicate Proper(asked: seq<nat>, rest: seq<bool>) {
    |asked| == |rest| && forall k :: 0 <= k < |asked| && rest[k] ==> asked[k] == 0
  }

  lemma DealtStep(asked: seq<nat>, rest: seq<bool>, budget: nat, fixed: nat, each: nat)
    requires |asked| == |rest| > 0
    ensures var n := |asked| - 1;
      var last := if rest[n] then each else if fixed > budget then Scaled(asked[n], budget, fixed) else asked[n];
      Sum(Dealt(asked, rest, budget, fixed, each)) ==
        Sum(Dealt(asked[..n], rest[..n], budget, fixed, each)) + last
  {
    var n := |asked| - 1;
    var all := Dealt(asked, rest, budget, fixed, each);
    assert all[..n] == Dealt(asked[..n], rest[..n], budget, fixed, each);
  }

  lemma {:induction false} DealtAsAsked(asked: seq<nat>, rest: seq<bool>, budget: nat, fixed: nat, each: nat)
    requires Proper(asked, rest) && fixed <= budget
    ensures Sum(Dealt(asked, rest, budget, fixed, each)) == Sum(asked) + Count(rest) * each
  {
    if asked == [] {
      assert Count(rest) * each == 0;
    } else {
      var n := |asked| - 1;
      DealtStep(asked, rest, budget, fixed, each);
      DealtAsAsked(asked[..n], rest[..n], budget, fixed, each);
      OneMoreEach(Count(rest[..n]), rest[n], each);
    }
  }

  lemma OneMoreEach(count: nat, more: bool, each: nat)
    ensures (count + if more then 1 else 0) * each == count * each + if more then each else 0
  {
  }

  // Scaling loses less than one byte a partition.
  lemma ScaledBounds(asked: nat, budget: nat, fixed: nat)
    requires fixed > 0
    ensures fixed * Scaled(asked, budget, fixed) <= asked * budget <= fixed * Scaled(asked, budget, fixed) + (fixed - 1)
    ensures budget <= fixed ==> Scaled(asked, budget, fixed) <= asked
  {
    var q := Scaled(asked, budget, fixed);
    assert asked * budget == fixed * q + asked * budget % fixed;
    assert fixed * (asked + 1) == fixed * asked + fixed;
    if budget <= fixed {
      MulOrder(asked, budget, fixed);
      if q > asked {
        MulOrder(fixed, asked + 1, q);
      }
    }
  }

  lemma Accumulate(fixed: nat, before: nat, q: nat, sum: nat, asked: nat, budget: nat, m: nat)
    requires fixed > 0
    requires fixed * before <= sum * budget <= fixed * before + m * (fixed - 1)
    requires fixed * q <= asked * budget <= fixed * q + (fixed - 1)
    ensures fixed * (before + q) <= (sum + asked) * budget <= fixed * (before + q) + (m + 1) * (fixed - 1)
  {
    assert fixed * (before + q) == fixed * before + fixed * q;
    assert (sum + asked) * budget == sum * budget + asked * budget;
    assert (m + 1) * (fixed - 1) == m * (fixed - 1) + (fixed - 1);
  }

  lemma {:induction false} DealtScaled(asked: seq<nat>, rest: seq<bool>, budget: nat, fixed: nat, each: nat)
    returns (given: nat)
    requires Proper(asked, rest) && fixed > budget
    ensures Sum(Dealt(asked, rest, budget, fixed, each)) == given + Count(rest) * each
    ensures Count(rest) <= |asked|
    ensures fixed * given <= Sum(asked) * budget <= fixed * given + (|asked| - Count(rest)) * (fixed - 1)
  {
    if asked == [] {
      given := 0;
      assert Sum(asked) * budget == 0;
    } else {
      var n := |asked| - 1;
      DealtStep(asked, rest, budget, fixed, each);
      var before := DealtScaled(asked[..n], rest[..n], budget, fixed, each);
      OneMoreEach(Count(rest[..n]), rest[n], each);
      if rest[n] {
        given := before;
      } else {
        var q := Scaled(asked[n], budget, fixed);
        given := before + q;
        ScaledBounds(asked[n], budget, fixed);
        Accumulate(fixed, before, q, Sum(asked[..n]), asked[n], budget, n - Count(rest[..n]));
      }
    }
  }

  lemma EachBounds(left: nat, count: nat)
    requires count > 0
    ensures count * Each(left, count) <= left < count * Each(left, count) + count
  {
    assert left == count * (left / count) + left % count;
  }

  lemma Cancel(a: nat, b: nat, c: nat, m: nat)
    requires a > 0 && a * b <= a * c + m * (a - 1)
    ensures b <= c + m && (m > 0 ==> b < c + m)
  {
    assert a * (c + m) == a * c + a * m;
    assert a * (c + m + 1) == a * (c + m) + a;
    assert m * (a - 1) == a * m - m;
    if b > c + m {
      MulOrder(a, c + m + 1, b);
    }
  }

  // What the partitions that ask for a size get together: no more than they
  // asked for and no more than the budget, and all but a rounding of it.
  lemma FixedTotal(asked: seq<nat>, rest: seq<bool>, budget: nat, each: nat) returns (given: nat)
    requires Proper(asked, rest)
    ensures Sum(Dealt(asked, rest, budget, Sum(asked), each)) == given + Count(rest) * each
    ensures Count(rest) <= |asked|
    ensures Sum(asked) <= budget ==> given == Sum(asked)
    ensures Sum(asked) > budget ==> Count(rest) < |asked| && given <= budget < given + (|asked| - Count(rest))
  {
    var fixed := Sum(asked);
    if fixed <= budget {
      DealtAsAsked(asked, rest, budget, fixed, each);
      CountAtMost(rest);
      given := fixed;
    } else {
      given := DealtScaled(asked, rest, budget, fixed, each);
      Cancel(fixed, given, budget, 0);
      var m := |asked| - Count(rest);
      if m == 0 {
        AllRest(asked, rest);
      }
      Cancel(fixed, budget, given, m);
    }
  }

  lemma {:induction false} CountAtMost(rest: seq<bool>)
    ensures Count(rest) <= |rest|
  {
    if rest != [] {
      CountAtMost(rest[..|rest| - 1]);
    }
  }

  // Where every partition takes the remainder, nothing is asked for.
  lemma {:induction false} AllRest(asked: seq<nat>, rest: seq<bool>)
    requires Proper(asked, rest) && Count(rest) == |rest|
    ensures Sum(asked) == 0
  {
    if rest != [] {
      var n := |rest| - 1;
      CountAtMost(rest[..n]);
      AllRest(asked[..n], rest[..n]);
    }
  }

  // The shares fit the medium; no partition gets more than it asked for; the
  // remainder partitions together keep at least half the medium, to within
  // the rounding of one division; and unless everything asked for was
  // granted with nobody to take the rest, fewer bytes than there are
  // partitions go unassigned.
  lemma SharesFit(medium: nat, asked: seq<nat>, rest: seq<bool>) returns (given: nat, each: nat)
    requires Proper(asked, rest) && |asked| > 0
    ensures var shares := Shares(medium, asked, rest);
      && Sum(shares) == given + Count(rest) * each <= medium
      && (forall k :: 0 <= k < |asked| ==> if rest[k] then shares[k] == each else shares[k] <= asked[k])
      && (Count(rest) > 0 ==> Count(rest) * each + Count(rest) > medium - medium / 2)
      && (Count(rest) > 0 || Sum(asked) > medium ==> medium - Sum(shares) <= |asked| - 1)
  {
    var fixed, budget := Sum(asked), Budget(medium, Count(rest));
    var taken := if fixed > budget then budget else fixed;
    each := if Count(rest) > 0 then Each(medium - taken, Count(rest)) else 0;
    given := FixedTotal(asked, rest, budget, each);
    forall k | 0 <= k < |asked|
      ensures Shares(medium, asked, rest)[k] == Dealt(asked, rest, budget, fixed, each)[k]
      ensures Shares(medium, asked, rest)[k] <= asked[k] || (rest[k] && Shares(medium, asked, rest)[k] == each)
    {
      if rest[k] {
        CountPositive(rest, k);
      } else if fixed > budget {
        ScaledBounds(asked[k], budget, fixed);
      }
    }
    assert Shares(medium, asked, rest) == Dealt(asked, rest, budget, fixed, each);
    if Count(rest) > 0 {
      EachBounds(medium - taken, Count(rest));
    }
  }

  lemma RequestsAreProper(p: Page, num: nat)
    requires p.Valid() && num <= MAX_PARTITIONS
    ensures Proper(Asked(p, num), Remainders(p, num))
  {
  }

  // For any page whose requests fit in 64 bits, the capacities the partitions
  // are told are those shares.
  lemma PageShares(medium: nat, num: nat, p: Page)
    requires p.Valid() && 2 <= num <= MAX_PARTITIONS && FitsIn64(p.units, num)
    ensures forall k :: 0 <= k < num ==>
      PageShare(medium, num, Some(p), k) == Shares(medium, Asked(p, num), Remainders(p, num))[k]
  {
    NoOverflow(p, num);
  }

  // One partition has it all; without a page all have the same, and less bytes
  // than there are partitions go to nobody; there are no others.
  lemma WithoutPage(medium: nat, num: nat, partition: int)
    requires 1 <= num <= MAX_PARTITIONS
    ensures var share := PageShare(medium, num, None, partition);
      && (0 <= partition < num ==> num * share <= medium < num * share + num)
      && (partition < 0 || partition >= num ==> share == 0)
  {
    EachBounds(medium, num);
  }

  // The capacities the partitions are told.
  function Told(medium: nat, num: nat, p: Page): (r: seq<nat>)
    requires p.Valid() && 1 <= num <= MAX_PARTITIONS
    ensures |r| == num
  {
    seq(num, k requires 0 <= k < num => PageShare(medium, num, Some(p), k))
  }

  lemma ToldIsShares(medium: nat, num: nat, p: Page)
    requires p.Valid() && 2 <= num <= MAX_PARTITIONS && FitsIn64(p.units, num)
    ensures Told(medium, num, p) == Shares(medium, Asked(p, num), Remainders(p, num))
  {
    PageShares(medium, num, p);
  }

  lemma AskedIsExact(p: Page, num: nat, k: nat)
    requires p.Valid() && num <= MAX_PARTITIONS && FitsIn64(p.units, num) && k < num
    ensures Remainders(p, num)[k] == (p.descriptors[k] == TAKES_REMAINDER)
    ensures p.descriptors[k] != TAKES_REMAINDER ==> Asked(p, num)[k] == p.descriptors[k] * Pow10(p.units)
  {
    NoOverflow(p, num);
  }

  // For any such page they fit the medium; none that asks for a size gets more;
  // those that take the remainder get the same each and together more than half
  // the medium, less the rounding of one division; and where some do, or more
  // was asked for than there is, at most num - 1 bytes go to nobody.
  lemma CapacitiesFit(medium: nat, num: nat, p: Page) returns (each: nat)
    requires p.Valid() && 2 <= num <= MAX_PARTITIONS && FitsIn64(p.units, num)
    ensures var told, takers := Told(medium, num, p), Count(Remainders(p, num));
      && Sum(told) <= medium
      && (forall k :: 0 <= k < num ==>
          if p.descriptors[k] == 0xffff then told[k] == each
          else told[k] <= p.descriptors[k] * Pow10(p.units))
      && (takers > 0 ==> takers * each + takers > medium - medium / 2)
      && (takers > 0 || Sum(Asked(p, num)) > medium ==> medium - Sum(told) <= num - 1)
  {
    var given;
    RequestsAreProper(p, num);
    given, each := SharesFit(medium, Asked(p, num), Remainders(p, num));
    ToldIsShares(medium, num, p);
    forall k | 0 <= k < num
      ensures if p.descriptors[k] == TAKES_REMAINDER then Told(medium, num, p)[k] == each
              else Told(medium, num, p)[k] <= p.descriptors[k] * Pow10(p.units)
    {
      AskedIsExact(p, num, k);
    }
  }

  // What they are told exactly. All that was asked for is granted where it fits
  // the medium, or half of it where some take the remainder; where it does not,
  // that much is dealt out in proportion, rounded down. The remainder partitions
  // share the rest evenly, rounded down.
  lemma ToldExactly(medium: nat, num: nat, p: Page, k: nat)
    requires p.Valid() && 2 <= num <= MAX_PARTITIONS && FitsIn64(p.units, num) && k < num
    ensures var told, asked, takers := Told(medium, num, p)[k], Sum(Asked(p, num)), Count(Remainders(p, num));
      var most := if takers > 0 then medium / 2 else medium;
      var wanted := p.descriptors[k] * Pow10(p.units);
      && (p.descriptors[k] != 0xffff && asked <= most ==> told == wanted)
      && (p.descriptors[k] != 0xffff && asked > most ==>
          asked * told <= wanted * most < asked * told + asked)
      && (p.descriptors[k] == 0xffff ==>
          takers * told <= medium - Least(asked, most) < takers * told + takers)
  {
    PageShares(medium, num, p);
    AskedIsExact(p, num, k);
    var asked, rest := Asked(p, num), Remainders(p, num);
    if p.descriptors[k] == TAKES_REMAINDER {
      CountPositive(rest, k);
      EachBounds(medium - Least(Sum(asked), medium / 2), Count(rest));
    } else if Sum(asked) > Budget(medium, Count(rest)) {
      ScaledBounds(asked[k], Budget(medium, Count(rest)), Sum(asked));
    }
  }

  // -------------------------------------------------- recording and reporting

  const LARGEST_DESCRIPTOR: nat := 0xfffe

  // The descriptor that reports a size: an existing partition's is not zero.
  function Reported(size: nat, unit: nat): nat
    requires unit > 0
  {
    if size > 0 && size / unit == 0 then 1 else size / unit
  }

  // A unit serves when every size fits a descriptor in it.
  predicate Serves(sizes: seq<nat>, units: nat) {
    forall k :: 0 <= k < |sizes| ==> sizes[k] / Pow10(units) <= LARGEST_DESCRIPTOR
  }

  ghost predicate Finest(sizes: seq<nat>, units: nat) {
    units <= 15 && Serves(sizes, units) && forall u :: 0 <= u < units ==> !Serves(sizes, u)
  }

  // A page that reports sizes: the finest unit that serves, each size in it.
  ghost predicate Reports(p: Page, sizes: seq<nat>) {
    && p.Valid() && 1 <= |sizes| <= MAX_PARTITIONS && Finest(sizes, p.units)
    && forall k :: 0 <= k < |sizes| ==> p.descriptors[k] == Reported(sizes[k], Pow10(p.units))
  }

  // What the medium remembers: its partitions and, once formatted, their sizes.
  class Medium {
    const maxCapacity: nat
    var numPartitions: nat
    var maxPartitions: nat
    var recorded: seq<nat>

    constructor (maxCapacity: nat, maxPartitions: nat)
      ensures Valid() && numPartitions == 1 && recorded == [0, 0, 0, 0]
      ensures this.maxCapacity == maxCapacity && this.maxPartitions == maxPartitions
    {
      this.maxCapacity, this.maxPartitions := maxCapacity, maxPartitions;
      numPartitions, recorded := 1, [0, 0, 0, 0];
    }

    predicate Valid()
      reads this
    {
      numPartitions <= MAX_PARTITIONS && |recorded| == MAX_PARTITIONS
    }

    function Num(): nat
      reads this
    {
      if numPartitions == 0 then 1 else numPartitions
    }

    // set_medium_partition_capacity
    method SetPartitionCapacity(page: Option<Page>)
      requires Valid() && (page.Some? ==> page.value.Valid())
      modifies this`recorded
      ensures Valid()
      ensures forall k :: 0 <= k < MAX_PARTITIONS ==> recorded[k] == PageShare(maxCapacity, Num(), page, k)
    {
      recorded := [0, 0, 0, 0];
      for k := 0 to Num()
        invariant Valid()
        invariant forall j :: 0 <= j < k ==> recorded[j] == PageShare(maxCapacity, Num(), page, j)
        invariant forall j :: k <= j < MAX_PARTITIONS ==> recorded[j] == 0
      {
        var share := CapacityFromPage(maxCapacity, numPartitions, page, k);
        recorded := recorded[k := share];
      }
    }

    // medium_partition_capacity: what was recorded wins over the page.
    method PartitionCapacity(page: Option<Page>, partition: int) returns (r: nat)
      requires Valid() && (page.Some? ==> page.value.Valid())
      ensures r == if 0 <= partition < MAX_PARTITIONS && recorded[partition] > 0 then recorded[partition]
                   else PageShare(maxCapacity, Num(), page, partition)
    {
      if 0 <= partition < MAX_PARTITIONS && recorded[partition] > 0 {
        r := recorded[partition];
      } else {
        r := CapacityFromPage(maxCapacity, numPartitions, page, partition);
      }
    }
  }

  lemma SharesAreSmall(medium: nat, num: nat, p: Page)
    requires p.Valid() && 1 <= num <= MAX_PARTITIONS && medium < TWO_64
    ensures forall k :: 0 <= k < num ==> PageShare(medium, num, Some(p), k) < TWO_64
  {
    forall k | 0 <= k < num
      ensures PageShare(medium, num, Some(p), k) < TWO_64
    {
      var asked, rest := Asked(p, num), Remainders(p, num);
      var budget, fixed := Budget(medium, Count(rest)), Wrap(Sum(asked));
      if rest[k] {
        CountPositive(rest, k);
        EachBounds(medium - (if fixed > budget then budget else fixed), Count(rest));
        MulOrder(Each(medium - (if fixed > budget then budget else fixed), Count(rest)), 1, Count(rest));
      } else if fixed > budget {
        ScaledBounds(asked[k], budget, fixed);
      }
    }
  }

  method Largest(sizes: seq<nat>) returns (largest: nat)
    ensures forall k :: 0 <= k < |sizes| ==> sizes[k] <= largest
    ensures largest == 0 || largest in sizes
  {
    largest := 0;
    for k := 0 to |sizes|
      invariant forall j :: 0 <= j < k ==> sizes[j] <= largest
      invariant largest == 0 || largest in sizes
    {
      if sizes[k] > largest {
        largest := sizes[k];
      }
    }
  }

  lemma DivOrder(a: nat, b: nat, u: nat)
    requires a <= b && u > 0
    ensures a / u <= b / u
  {
    if a / u > b / u {
      MulOrder(u, b / u + 1, a / u);
    }
  }

  // The finest unit in which every size fits a descriptor; the coarsest the
  // page can express always does.
  method FindUnit(sizes: seq<nat>) returns (units: nat, unit: nat)
    requires forall k :: 0 <= k < |sizes| ==> sizes[k] < TWO_64
    ensures unit == Pow10(units) && Finest(sizes, units)
  {
    var largest := Largest(sizes);
    units, unit := 0, 1;
    while units < 15 && largest / unit > LARGEST_DESCRIPTOR
      invariant 0 <= units <= 15 && unit == Pow10(units)
      invariant forall u :: 0 <= u < units ==> !Serves(sizes, u)
    {
      TooFine(sizes, largest, units);
      units, unit := units + 1, unit * 10;
    }
    Coarse(sizes, largest, units);
  }

  lemma TooFine(sizes: seq<nat>, largest: nat, units: nat)
    requires largest == 0 || largest in sizes
    requires largest / Pow10(units) > LARGEST_DESCRIPTOR
    ensures !Serves(sizes, units)
  {
    assert largest != 0;
    var k :| 0 <= k < |sizes| && sizes[k] == largest;
    assert sizes[k] / Pow10(units) > LARGEST_DESCRIPTOR;
  }

  lemma Coarse(sizes: seq<nat>, largest: nat, units: nat)
    requires forall k :: 0 <= k < |sizes| ==> sizes[k] <= largest && sizes[k] < TWO_64
    requires largest / Pow10(units) <= LARGEST_DESCRIPTOR || units == 15
    ensures Serves(sizes, units)
  {
    forall k | 0 <= k < |sizes|
      ensures sizes[k] / Pow10(units) <= LARGEST_DESCRIPTOR
    {
      DivOrder(sizes[k], largest, Pow10(units));
      if units == 15 {
        PowersOfTen();
        DivOrder(sizes[k], TWO_64 - 1, Pow10(units));
      }
    }
  }

  // The descriptor as it is stored, in 16 bits.
  function Stored(size: nat, unit: nat): (r: nat)
    requires unit > 0
    ensures r <= 0xffff
    ensures r == 0 <==> size == 0
    ensures size / unit <= LARGEST_DESCRIPTOR ==> r == Reported(size, unit)
  {
    var descriptor := size / unit % 0x1_0000;
    if descriptor == 0 && size > 0 then 1 else descriptor
  }

  // ------------------------------------------------------- reading it back

  function RoundedDown(size: nat, unit: nat): nat
    requires unit > 0
  {
    size / unit * unit
  }

  lemma RoundedIsLess(size: nat, unit: nat)
    requires unit > 0
    ensures RoundedDown(size, unit) <= size < RoundedDown(size, unit) + unit
    ensures size < unit ==> RoundedDown(size, unit) == 0
  {
  }

  lemma {:induction false} SumOrder(a: seq<nat>, b: seq<nat>)
    requires |a| == |b| && forall k :: 0 <= k < |a| ==> a[k] <= b[k]
    ensures Sum(a) <= Sum(b)
  {
    if a != [] {
      SumOrder(a[..|a| - 1], b[..|b| - 1]);
    }
  }

  lemma {:induction false} PartOfSum(s: seq<nat>, k: nat)
    requires k < |s|
    ensures s[k] <= Sum(s)
  {
    var n := |s| - 1;
    if k < n {
      PartOfSum(s[..n], k);
    }
  }

  lemma NobodyTakesRest(p: Page, num: nat)
    requires p.Valid() && num <= MAX_PARTITIONS
    requires forall k :: 0 <= k < num ==> p.descriptors[k] != TAKES_REMAINDER
    ensures Count(Remainders(p, num)) == 0
  {
    NoneCounted(Remainders(p, num));
  }

  lemma {:induction false} NoneCounted(rest: seq<bool>)
    requires forall k :: 0 <= k < |rest| ==> !rest[k]
    ensures Count(rest) == 0
  {
    if rest != [] {
      NoneCounted(rest[..|rest| - 1]);
    }
  }

  lemma LargeReported(size: nat, unit: nat)
    requires unit > 0 && (size == 0 || size >= unit) && size < TWO_64 && size / unit <= LARGEST_DESCRIPTOR
    ensures Request(Reported(size, unit), unit) == RoundedDown(size, unit) <= size
    ensures Reported(size, unit) != TAKES_REMAINDER
  {
    RoundedIsLess(size, unit);
    AtLeastOne(size, unit);
  }

  lemma AnyReported(size: nat, unit: nat)
    requires 0 < unit < TWO_64 && size / unit <= LARGEST_DESCRIPTOR
    ensures Request(Reported(size, unit), unit) <= size + unit
    ensures Reported(size, unit) != TAKES_REMAINDER
    ensures 0 < size < unit ==> Request(Reported(size, unit), unit) == unit && RoundedDown(size, unit) == 0
  {
    RoundedIsLess(size, unit);
    WrapShrinks(Reported(size, unit) * unit);
  }

  lemma ByThePage(medium: nat, num: nat, p: Page, k: nat)
    requires p.Valid() && 2 <= num <= MAX_PARTITIONS && k < num
    ensures PageShare(medium, num, Some(p), k) ==
      Share(medium, Asked(p, num), Remainders(p, num), Wrap(Sum(Asked(p, num))), k)
  {
  }

  lemma WrapSmall(x: nat)
    requires x < TWO_64
    ensures Wrap(x) == x
  {
  }

  lemma ShareUnscaled(medium: nat, asked: seq<nat>, rest: seq<bool>, fixed: nat, k: nat)
    requires k < |asked| == |rest| && !rest[k] && Count(rest) == 0 && fixed <= medium
    ensures Share(medium, asked, rest, fixed, k) == asked[k]
  {
  }

  // With nobody taking the rest and the requests within the medium, each
  // partition gets what it asked for.
  lemma Unscaled(p: Page, num: nat, medium: nat, k: nat)
    requires p.Valid() && 2 <= num <= MAX_PARTITIONS && k < num
    requires Count(Remainders(p, num)) == 0 && p.descriptors[k] != TAKES_REMAINDER
    requires Sum(Asked(p, num)) <= medium < TWO_64
    ensures PageShare(medium, num, Some(p), k) == Asked(p, num)[k]
  {
    var asked, rest := Asked(p, num), Remainders(p, num);
    ByThePage(medium, num, p, k);
    WrapSmall(Sum(asked));
    ShareUnscaled(medium, asked, rest, Sum(asked), k);
  }

  // Sizes of at least a unit each, fitting the medium, come back rounded down
  // to the unit, without scaling.
  lemma ReadsBackRounded(p: Page, sizes: seq<nat>, medium: nat)
    requires Reports(p, sizes) && |sizes| >= 2 && Sum(sizes) <= medium < TWO_64
    requires forall k :: 0 <= k < |sizes| ==> sizes[k] == 0 || sizes[k] >= Pow10(p.units)
    ensures forall k :: 0 <= k < |sizes| ==>
      PageShare(medium, |sizes|, Some(p), k) == RoundedDown(sizes[k], Pow10(p.units))
  {
    var num := |sizes|;
    forall k | 0 <= k < num
      ensures p.descriptors[k] != TAKES_REMAINDER
      ensures Asked(p, num)[k] == RoundedDown(sizes[k], Pow10(p.units)) <= sizes[k]
    {
      PartOfSum(sizes, k);
      LargeReported(sizes[k], Pow10(p.units));
    }
    SumOrder(Asked(p, num), sizes);
    NobodyTakesRest(p, num);
    forall k | 0 <= k < num
      ensures PageShare(medium, num, Some(p), k) == Asked(p, num)[k]
    {
      Unscaled(p, num, medium, k);
    }
  }

  lemma AtLeastOne(size: nat, unit: nat)
    requires unit > 0 && (size == 0 || size >= unit)
    ensures Reported(size, unit) == size / unit
  {
    if size >= unit {
      DivOrder(unit, size, unit);
      assert unit / unit == 1;
    }
  }

  // A unit coarser than one was chosen because some size is much larger.
  lemma MediumIsLarge(p: Page, sizes: seq<nat>)
    requires Reports(p, sizes) && p.units > 0
    ensures Sum(sizes) >= 4 * Pow10(p.units)
  {
    assert !Serves(sizes, p.units - 1);
    var j :| 0 <= j < |sizes| && sizes[j] / Pow10(p.units - 1) > LARGEST_DESCRIPTOR;
    PartOfSum(sizes, j);
    ManyUnits(sizes[j], Pow10(p.units), Pow10(p.units - 1));
  }

  lemma AllReported(p: Page, sizes: seq<nat>)
    requires Reports(p, sizes)
    ensures Count(Remainders(p, |sizes|)) == 0
    ensures Sum(Asked(p, |sizes|)) <= Sum(sizes) + |sizes| * Pow10(p.units)
  {
    var num := |sizes|;
    Pow10Grows(p.units, 15);
    PowersOfTen();
    forall i | 0 <= i < num
      ensures p.descriptors[i] != TAKES_REMAINDER && Asked(p, num)[i] <= sizes[i] + Pow10(p.units)
    {
      AnyReported(sizes[i], Pow10(p.units));
    }
    NobodyTakesRest(p, num);
    SumAtMost(Asked(p, num), sizes, Pow10(p.units));
  }

  // A size below the unit is reported as one unit, and never comes back as zero.
  lemma TinyDoesNotVanish(p: Page, sizes: seq<nat>, medium: nat, k: nat)
    requires Reports(p, sizes) && |sizes| >= 2 && Sum(sizes) <= medium < TWO_64
    requires k < |sizes| && 0 < sizes[k] < Pow10(p.units)
    ensures PageShare(medium, |sizes|, Some(p), k) > 0 == RoundedDown(sizes[k], Pow10(p.units))
  {
    var unit, num := Pow10(p.units), |sizes|;
    Pow10Grows(p.units, 15);
    PowersOfTen();
    AnyReported(sizes[k], unit);
    MediumIsLarge(p, sizes);
    AllReported(p, sizes);
    assert Asked(p, num)[k] == unit;
    var fixed := Wrap(Sum(Asked(p, num)));
    WrapShrinks(Sum(Asked(p, num)));
    FewUnits(num, unit);
    if fixed > medium {
      MulOrder(medium, 2, unit);
      ScaledPositive(unit, medium, fixed);
    }
  }

  lemma FewUnits(num: nat, unit: nat)
    requires num <= MAX_PARTITIONS
    ensures num * unit <= 4 * unit
  {
  }

  lemma WrapShrinks(x: nat)
    ensures Wrap(x) <= x
  {
  }

  // More than 65534 of the next finer unit are thousands of units.
  lemma ManyUnits(size: nat, unit: nat, finer: nat)
    requires finer > 0 && unit == 10 * finer && size / finer > LARGEST_DESCRIPTOR
    ensures size >= 4 * unit
  {
    MulOrder(finer, LARGEST_DESCRIPTOR, size / finer);
  }

  lemma {:induction false} SumAtMost(a: seq<nat>, b: seq<nat>, unit: nat)
    requires |a| == |b| && forall k :: 0 <= k < |a| ==> a[k] <= b[k] + unit
    ensures Sum(a) <= Sum(b) + |a| * unit
  {
    if a != [] {
      SumAtMost(a[..|a| - 1], b[..|b| - 1], unit);
      assert |a| * unit == (|a| - 1) * unit + unit;
    }
  }

  lemma ScaledPositive(asked: nat, budget: nat, fixed: nat)
    requires 0 < fixed <= asked * budget
    ensures Scaled(asked, budget, fixed) > 0
  {
    DivOrder(fixed, asked * budget, fixed);
    assert fixed / fixed == 1;
  }

  // Reading the page back gives every size rounded down to the unit exactly
  // when no partition is smaller than a unit.
  lemma ReadBack(p: Page, sizes: seq<nat>, medium: nat)
    requires Reports(p, sizes) && |sizes| >= 2 && Sum(sizes) <= medium < TWO_64
    ensures (forall k :: 0 <= k < |sizes| ==>
              PageShare(medium, |sizes|, Some(p), k) == RoundedDown(sizes[k], Pow10(p.units)))
       <==> (forall k :: 0 <= k < |sizes| ==> sizes[k] == 0 || sizes[k] >= Pow10(p.units))
  {
    if forall k :: 0 <= k < |sizes| ==> sizes[k] == 0 || sizes[k] >= Pow10(p.units) {
      ReadsBackRounded(p, sizes, medium);
    } else {
      var k :| 0 <= k < |sizes| && sizes[k] != 0 && sizes[k] < Pow10(p.units);
      TinyDoesNotVanish(p, sizes, medium, k);
    }
  }

  // Five bytes beside 655350, counted in hundreds: the five are reported as one
  // hundred, which is more than there is, and come back as 99.
  lemma FiveComesBackAs99()
    ensures var p, sizes := Page(3, 1, 2, [1, 6553, 0, 0]), [5, 655350];
      Reports(p, sizes) && Sum(sizes) == 655355 && PageShare(655355, 2, Some(p), 0) == 99 != RoundedDown(5, 100)
  {
    var p, sizes := Page(3, 1, 2, [1, 6553, 0, 0]), [5, 655350];
    assert Pow10(0) == 1 && Pow10(1) == 10 && Pow10(2) == 100;
    assert sizes[1] / Pow10(0) > LARGEST_DESCRIPTOR && sizes[1] / Pow10(1) > LARGEST_DESCRIPTOR;
    assert sizes[..1] == [5] && sizes[..1][..0] == [];
    assert Asked(p, 2) == [100, 655300];
    assert [100, 655300][..1] == [100] && [100][..0] == [];
    assert Sum(Asked(p, 2)) == 655400;
    assert Remainders(p, 2) == [false, false];
    assert [false, false][..1] == [false] && [false][..0] == [];
    assert Count(Remainders(p, 2)) == 0;
  }
}
