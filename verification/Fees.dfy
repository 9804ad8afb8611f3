/** The fee floor derived from what peers advertise, in 64-bit arithmetic that saturates. */
module Fees {
  import opened Prelude

  const SCALE := 1000

  /** Go's wrapping `*` and `+`. */
  function Mul(a: U64, b: U64): U64
  {
    (a * b) % U64_SIZE
  }

  function Add(a: U64, b: U64): U64
  {
    (a + b) % U64_SIZE
  }

  /** ceil(1000 * satoshis / bytes), unbounded. */
  function PerKB(satoshis: nat, bytes: nat): nat
    requires bytes > 0
  {
    (SCALE * satoshis + bytes - 1) / bytes
  }

  function Saturated(x: nat): U64
  {
    if x > MAX_U64 then MAX_U64 else x
  }

  /** The advertised rate per 1000 bytes, rounded up. */
  function CeilFeePerKB(satoshis: U64, bytes: U64): U64
    requires bytes > 0
  {
    var whole, rem := Div(satoshis, bytes), satoshis % bytes;
    if whole > MAX_U64 / SCALE || rem > MAX_U64 / SCALE then MAX_U64
    else
      var base, remScaled := Mul(whole, SCALE), Mul(rem, SCALE);
      var add := RoundUp(remScaled, bytes);
      if base > MAX_U64 - add then MAX_U64 else Add(base, add)
  }

  function Div(x: U64, b: U64): (q: U64)
    requires b > 0
  {
    QuotientBound(x, b);
    x / b
  }

  function RoundUp(x: U64, b: U64): U64
    requires b > 0
  {
    if x % b != 0 then Add(Div(x, b), 1) else Div(x, b)
  }

  lemma QuotientBound(x: nat, b: nat)
    requires b > 0
    ensures 0 <= x / b <= x
  {
    var q := x / b;
    assert x == q * b + x % b;
    MulAtLeast(b, q);
  }

  lemma MulAtLeast(k: int, b: nat)
    requires k >= 1
    ensures k * b >= b
  {
    assert k * b == (k - 1) * b + b;
  }

  /** Quotient and remainder are unique. */
  lemma DivUnique(x: nat, b: nat, q: nat, r: nat)
    requires b > 0 && x == q * b + r && r < b
    ensures x / b == q && x % b == r
  {
    var q', r' := x / b, x % b;
    assert x == q' * b + r' && 0 <= r' < b;
    assert (q - q') * b == r' - r && (q' - q) * b == r - r';
    if q > q' {
      MulAtLeast(q - q', b);
    } else if q' > q {
      MulAtLeast(q' - q, b);
    }
  }

  lemma DivShift(q: nat, x: nat, b: nat)
    requires b > 0
    ensures (q * b + x) / b == q + x / b
  {
    var p, r := x / b, x % b;
    assert x == p * b + r;
    assert q * b + x == (q + p) * b + r;
    DivUnique(q * b + x, b, q + p, r);
  }

  /** The whole and the remaining part scale separately. */
  lemma PerKBSplits(satoshis: nat, bytes: nat)
    requires bytes > 0
    ensures PerKB(satoshis, bytes) == SCALE * (satoshis / bytes) + PerKB(satoshis % bytes, bytes)
  {
    var whole, rem := satoshis / bytes, satoshis % bytes;
    assert satoshis == whole * bytes + rem;
    assert SCALE * satoshis + bytes - 1 == (SCALE * whole) * bytes + (SCALE * rem + bytes - 1);
    DivShift(SCALE * whole, SCALE * rem + bytes - 1, bytes);
  }

  /** Rounding up by division and remainder. */
  lemma CeilByRemainder(x: nat, b: nat)
    requires b > 0
    ensures (x + b - 1) / b == if x % b != 0 then x / b + 1 else x / b
  {
    var q, r := x / b, x % b;
    assert x == q * b + r;
    if r == 0 {
      DivUnique(x + b - 1, b, q, b - 1);
    } else {
      assert x + b - 1 == (q + 1) * b + (r - 1);
      DivUnique(x + b - 1, b, q + 1, r - 1);
    }
  }

  /** The remaining part contributes at most 1000. */
  lemma RemainderFits(rem: nat, bytes: nat)
    requires 0 <= rem < bytes
    ensures PerKB(rem, bytes) <= SCALE
  {
    var x := SCALE * rem + bytes - 1;
    var q := x / bytes;
    assert x == q * bytes + x % bytes;
    assert q * bytes == (q - SCALE) * bytes + SCALE * bytes;
    if q > SCALE {
      MulAtLeast(q - SCALE, bytes);
    }
  }

  /**
   The arithmetic never wraps: the result is the rounded-up rate, saturated, whenever the remainder can be scaled, and
   the largest value otherwise.
   */
  lemma CeilFeeExact(satoshis: U64, bytes: U64)
    requires bytes > 0
    ensures CeilFeePerKB(satoshis, bytes) ==
            if satoshis % bytes <= MAX_U64 / SCALE then Saturated(PerKB(satoshis, bytes)) else MAX_U64
  {
    var whole, rem := Div(satoshis, bytes), satoshis % bytes;
    PerKBSplits(satoshis, bytes);
    if whole > MAX_U64 / SCALE {
      Overlarge(whole);
    } else if rem <= MAX_U64 / SCALE {
      ScaleExact(whole);
      ScaleExact(rem);
      RemainderFits(rem, bytes);
      RoundUpExact(SCALE * rem, bytes);
      SumExact(SCALE * whole, PerKB(rem, bytes));
    }
  }

  lemma Overlarge(a: nat)
    requires a > MAX_U64 / SCALE
    ensures SCALE * a > MAX_U64
  {
  }

  /** Adding with the guard saturates. */
  lemma SumExact(a: U64, b: U64)
    ensures (if a > MAX_U64 - b then MAX_U64 else Add(a, b)) == Saturated(a + b)
  {
  }

  lemma ScaleExact(a: U64)
    requires a <= MAX_U64 / SCALE
    ensures Mul(a, SCALE) == SCALE * a
  {
  }

  lemma RoundUpExact(x: U64, b: U64)
    requires b > 0 && (x + b - 1) / b <= SCALE
    ensures RoundUp(x, b) == (x + b - 1) / b
  {
    CeilByRemainder(x, b);
  }

  /** Never below the peer's rate, and exact whenever the byte basis is at most MaxUint64/1000 + 1. */
  lemma CeilFeeNeverBelow(satoshis: U64, bytes: U64)
    requires bytes > 0
    ensures CeilFeePerKB(satoshis, bytes) >= Saturated(PerKB(satoshis, bytes))
    ensures bytes <= MAX_U64 / SCALE + 1 ==> CeilFeePerKB(satoshis, bytes) == Saturated(PerKB(satoshis, bytes))
  {
    CeilFeeExact(satoshis, bytes);
  }

  // ----- the floor over all peers

  /** `lastSeen` is absent for a peer whose time is not recorded. */
  datatype PeerPolicy = PeerPolicy(peerId: string, satoshis: U64, bytes: U64, lastSeen: Option<int>)

  const MIN_DISCOVERED_FEE_PER_KB: U64 := 1
  const DEFAULT_MIN_FEE_PER_KB: U64 := 100

  /** Heard within the time to live, and advertising a byte basis. */
  predicate Counts(p: PeerPolicy, ttl: int, now: int)
  {
    p.bytes != 0 && (p.lastSeen.None? || p.lastSeen.value >= now - ttl)
  }

  /** The cheapest of the first n peers that count, and the earliest of those. */
  ghost predicate IsLowest(peers: seq<PeerPolicy>, ttl: int, now: int, n: nat, best: U64, peerId: string, found: bool)
  {
    && n <= |peers|
    && (found <==> exists i :: 0 <= i < n && Counts(peers[i], ttl, now))
    && (forall i | 0 <= i < n && Counts(peers[i], ttl, now) :: best <= CeilFeePerKB(peers[i].satoshis, peers[i].bytes))
    && (found ==> exists i ::
          && 0 <= i < n && Counts(peers[i], ttl, now)
          && best == CeilFeePerKB(peers[i].satoshis, peers[i].bytes) && peerId == peers[i].peerId
          && forall k | 0 <= k < i && Counts(peers[k], ttl, now) :: best < CeilFeePerKB(peers[k].satoshis, peers[k].bytes))
  }

  method LowestObservedFeePerKB(peers: seq<PeerPolicy>, ttl: int, now: int)
    returns (best: U64, peerId: string, found: bool)
    ensures IsLowest(peers, ttl, now, |peers|, best, peerId, found)
  {
    var cutoff := now - ttl;
    best, peerId, found := 0, "", false;
    for n := 0 to |peers|
      invariant IsLowest(peers, ttl, now, n, best, peerId, found)
    {
      var p := peers[n];
      if p.bytes == 0 {
        continue;
      }
      if p.lastSeen.Some? && p.lastSeen.value < cutoff {
        continue;
      }
      var perKB := CeilFeePerKB(p.satoshis, p.bytes);
      if !found || perKB < best {
        best, peerId, found := perKB, p.peerId, true;
      }
    }
  }

  /** The discovered floor: the cheapest fresh peer's rate but at least 1, or the default when no peer counts. */
  method DiscoveredFeePerKB(peers: seq<PeerPolicy>, ttl: int, now: int) returns (fee: U64, peerId: string)
    ensures fee >= 1
    ensures (forall p | p in peers :: !Counts(p, ttl, now)) ==> fee == DEFAULT_MIN_FEE_PER_KB && peerId == ""
    ensures forall p | p in peers && Counts(p, ttl, now) ::
              fee <= 1 || fee <= CeilFeePerKB(p.satoshis, p.bytes)
    ensures (exists p :: p in peers && Counts(p, ttl, now)) ==>
              exists p ::
                && p in peers && Counts(p, ttl, now) && p.peerId == peerId
                && fee == (if CeilFeePerKB(p.satoshis, p.bytes) < 1 then 1 else CeilFeePerKB(p.satoshis, p.bytes))
  {
    var observed, id, ok := LowestObservedFeePerKB(peers, ttl, now);
    if !ok {
      return DEFAULT_MIN_FEE_PER_KB, "";
    }
    if observed < MIN_DISCOVERED_FEE_PER_KB {
      return MIN_DISCOVERED_FEE_PER_KB, id;
    }
    return observed, id;
  }
}
