/** Shared vocabulary: optional values, and the shifts the path arithmetic is written in. */
module Prelude {

  datatype Option<+T> = None | Some(value: T)

  const U64_SIZE := 0x1_0000_0000_0000_0000
  const MAX_U64 := U64_SIZE - 1

  /** Go's uint64. */
  type U64 = x: nat | x < U64_SIZE

  /** `s << k`. */
  function Shl(s: nat, k: nat): nat
  {
    if k == 0 then s else 2 * Shl(s, k - 1)
  }

  /** `s >> k`. */
  function Shr(s: nat, k: nat): nat
  {
    if k == 0 then s else Shr(s, k - 1) / 2
  }

  /** `o ^ 1`: the other child of the same parent. */
  function Sibling(o: nat): nat
  {
    if o % 2 == 0 then o + 1 else o - 1
  }

  /** `Ceil(Log2(n))` for n >= 1. */
  function CeilLog2(n: nat): nat
  {
    if n <= 1 then 0 else 1 + CeilLog2((n + 1) / 2)
  }

  lemma {:induction false} ShlAdd(s: nat, t: nat, k: nat)
    ensures Shl(s + t, k) == Shl(s, k) + Shl(t, k)
  {
    if k > 0 {
      ShlAdd(s, t, k - 1);
    }
  }

  lemma {:induction false} ShlPositive(k: nat)
    ensures Shl(1, k) >= 1
    ensures Shl(0, k) == 0
  {
    if k > 0 {
      ShlPositive(k - 1);
    }
  }

  lemma {:induction false} ShlMonotone(s: nat, t: nat, k: nat)
    requires s <= t
    ensures Shl(s, k) <= Shl(t, k)
    ensures s < t ==> Shl(s, k) + Shl(1, k) <= Shl(t, k)
  {
    if k > 0 {
      ShlMonotone(s, t, k - 1);
    }
  }

  lemma {:induction false} PowersGrow(j: nat, k: nat)
    requires j <= k
    ensures Shl(1, j) <= Shl(1, k)
    ensures j < k ==> Shl(1, j) < Shl(1, k)
  {
    ShlPositive(j);
    if j < k {
      PowersGrow(j, k - 1);
    }
  }

  /** The shifts are inverse, and a remainder below `1 << k` is shifted out. */
  lemma {:induction false} ShrOfShl(s: nat, r: nat, k: nat)
    requires r < Shl(1, k)
    ensures Shr(Shl(s, k) + r, k) == s
  {
    if k > 0 {
      ShrStep(Shl(s, k) + r, k);
      ShrOfShl(s, r / 2, k - 1);
      assert (Shl(s, k) + r) / 2 == Shl(s, k - 1) + r / 2;
    }
  }

  /** Shifting by k+1 is halving first and shifting by k after. */
  lemma {:induction false} ShrStep(s: nat, k: nat)
    requires k > 0
    ensures Shr(s, k) == Shr(s / 2, k - 1)
  {
    if k > 1 {
      ShrStep(s, k - 1);
    }
  }

  lemma {:induction false} ShrBelow(g: nat, f: nat, k: nat)
    requires g < Shl(f, k)
    ensures Shr(g, k) < f
  {
    if k > 0 {
      ShrStep(g, k);
      ShrBelow(g / 2, f, k - 1);
    }
  }

  /** `CeilLog2(n)` is the least k with `n <= 1 << k`. */
  lemma {:induction false} CeilLog2Least(n: nat, k: nat)
    ensures n <= Shl(1, CeilLog2(n))
    ensures n <= Shl(1, k) ==> CeilLog2(n) <= k
  {
    ShlPositive(k);
    if n > 1 {
      CeilLog2Least((n + 1) / 2, if k == 0 then 0 else k - 1);
    }
  }
}
