/** Which partition a key is routed to. */
module Partitions {

  /** FNV-1a over the key's bytes; only that it is a function of the key matters here. */
  const FNV1A: string -> nat

  /** Go's conversion to int32. */
  function Int32(x: int): (r: int)
    ensures -0x8000_0000 <= r < 0x8000_0000 && (r - x) % 0x1_0000_0000 == 0
  {
    var low := x % 0x1_0000_0000;
    if low >= 0x8000_0000 then low - 0x1_0000_0000 else low
  }

  function Abs(x: int): nat
  {
    if x < 0 then -x else x
  }

  /** Go's `%`, which takes the sign of the dividend. */
  function Remainder(x: int, y: int): (r: int)
    requires y != 0
    ensures Abs(r) < Abs(y) && (x < 0 ==> r <= 0) && (x >= 0 ==> r >= 0)
  {
    var r := Abs(x) % Abs(y);
    if x < 0 then -r else r
  }

  /** The configured count, or 1. */
  function PartitionsFor(partitions: map<string, int>, topic: string): (n: int)
    ensures n >= 1
  {
    if topic in partitions && partitions[topic] > 0 then partitions[topic] else 1
  }

  /** A partition can be computed for every key unless the count is a multiple of 2^32. */
  predicate Routable(n: int)
  {
    Int32(n) != 0
  }

  /** The partition of a key, always below the count. */
  function PartitionForKey(key: string, n: int): (p: nat)
    requires n >= 1 && Routable(n)
    ensures p < n
  {
    if n <= 1 || key == "" then 0
    else
      var p := Remainder(Int32(FNV1A(key) % 0x1_0000_0000), Int32(n));
      CountBounds(n);
      Abs(p)
  }

  lemma CountBounds(n: int)
    requires n >= 1 && Int32(n) != 0
    ensures Abs(Int32(n)) <= n
  {
  }
}
