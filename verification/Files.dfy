// Files as sequences of fixed-size records.

module Files {

  type byte = b: int | 0 <= b < 256

  // pwrite at a place inside the file or at its end.
  function PWrite<T>(f: seq<T>, at: nat, s: seq<T>): seq<T>
    requires at <= |f|
  {
    f[..at] + s + (if at + |s| < |f| then f[at + |s|..] else [])
  }

  // ftruncate to a length the file has.
  function Truncate<T>(f: seq<T>, n: nat): seq<T>
    requires n <= |f|
  {
    f[..n]
  }

  function Zeros(n: nat): (r: seq<byte>)
    ensures |r| == n
  {
    seq(n, _ => 0)
  }
}
