// What several components share.

module Basics {

  // A cartridge has up to four partitions.
  const MAX_PARTITIONS: nat := 4

  const TWO_32: nat := 0x1_0000_0000
  const TWO_63: nat := 0x8000_0000_0000_0000
  const TWO_64: nat := 0x1_0000_0000_0000_0000

  datatype Option<T> = None | Some(value: T)

  function Least(a: nat, b: nat): nat {
    if a < b then a else b
  }

  lemma MulOrder(a: nat, b: nat, c: nat)
    requires b <= c
    ensures a * b <= a * c
  {
  }

  lemma DivideExactly(x: nat, d: nat, n: nat)
    requires d > 0 && d * n <= x < d * n + d
    ensures x / d == n
  {
    var k := x / d;
    assert x == d * k + x % d;
    assert d * (k + 1) == d * k + d && d * (n + 1) == d * n + d;
    if k < n {
      MulOrder(d, k + 1, n);
    } else if n < k {
      MulOrder(d, n + 1, k);
    }
  }

  lemma Regroup<T>(a: seq<T>, b: seq<T>, c: seq<T>)
    ensures (a + b) + c == a + (b + c)
  {
  }
}
