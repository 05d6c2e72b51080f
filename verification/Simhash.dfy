/**
 64-bit simhash fingerprints: Hamming distance, the overlapping 16-bit windows
 by which the near-duplicate index looks them up, and the signed integer under
 which a fingerprint is stored in the database.
 */
module Simhash {
  import opened Multiples

  /** A `u64`, as its bits, least significant first. */
  type u64 = bits: seq<bool> | |bits| == 64 witness seq(64, i => false)

  type u16 = n: nat | n < 0x1_0000

  type i64 = n: int | -0x8000_0000_0000_0000 <= n < 0x8000_0000_0000_0000

  const BAND_NUM: nat := 8
  const BAND_BITS: nat := 8

  // ----- Bits and numbers -----

  function Bit(b: bool): nat {
    if b then 1 else 0
  }

  function Pow2(n: nat): (p: nat)
    ensures p > 0
  {
    if n == 0 then 1 else 2 * Pow2(n - 1)
  }

  /** The unsigned number that `bits` denote. */
  function ToNat(bits: seq<bool>): (v: nat)
    ensures v < Pow2(|bits|)
  {
    if |bits| == 0 then 0 else Bit(bits[0]) + 2 * ToNat(bits[1..])
  }

  function FromNat(v: nat, width: nat): (bits: seq<bool>)
    ensures |bits| == width
  {
    if width == 0 then [] else [v % 2 == 1] + FromNat(v / 2, width - 1)
  }

  lemma {:induction false} FromNatOfToNat(bits: seq<bool>)
    ensures FromNat(ToNat(bits), |bits|) == bits
  {
    if |bits| > 0 {
      FromNatOfToNat(bits[1..]);
      assert ToNat(bits) % 2 == Bit(bits[0]) && ToNat(bits) / 2 == ToNat(bits[1..]);
    }
  }

  lemma ToNatIsInjective(a: seq<bool>, b: seq<bool>)
    requires |a| == |b|
    ensures ToNat(a) == ToNat(b) <==> a == b
  {
    FromNatOfToNat(a);
    FromNatOfToNat(b);
  }

  lemma PowersOfTwo()
    ensures Pow2(8) == 0x100 && Pow2(16) == 0x1_0000 && Pow2(64) == 0x1_0000_0000_0000_0000
  {
    assert Pow2(8) == 0x100;
    assert Pow2(16) == 0x1_0000;
    assert Pow2(24) == 0x100_0000;
    assert Pow2(32) == 0x1_0000_0000;
    assert Pow2(40) == 0x100_0000_0000;
    assert Pow2(48) == 0x1_0000_0000_0000;
    assert Pow2(56) == 0x100_0000_0000_0000;
  }

  // ----- The database column -----

  /** `h as i64` */
  function ToI64(h: u64): i64 {
    PowersOfTwo();
    var v := ToNat(h);
    if v < 0x8000_0000_0000_0000 then v else v - 0x1_0000_0000_0000_0000
  }

  /** `v as u64` */
  function ToU64(v: i64): u64 {
    FromNat(if v >= 0 then v else v + 0x1_0000_0000_0000_0000, 64)
  }

  /** A fingerprint survives the signed column it is stored in. */
  lemma I64RoundTrip(h: u64)
    ensures ToU64(ToI64(h)) == h
  {
    PowersOfTwo();
    FromNatOfToNat(h);
    assert ToNat(h) < 0x1_0000_0000_0000_0000;
  }

  /** The column has the number that is the same modulo 2^64. */
  lemma I64IsSameModulo(h: u64)
    ensures (ToI64(h) - ToNat(h)) % 0x1_0000_0000_0000_0000 == 0
  {
  }

  // ----- Windows and distance -----

  function Min(a: nat, b: nat): nat {
    if a < b then a else b
  }

  /** `(hash >> (band_id * BAND_BITS)) as u16`: the last window has only eight live bits. */
  function ExtractBand(hash: u64, bandId: nat): u16
    requires bandId < BAND_NUM
  {
    var lo := bandId * BAND_BITS;
    PowersOfTwo();
    ToNat(hash[lo..Min(lo + 16, 64)])
  }

  lemma {:induction false} ToNatSplit(bits: seq<bool>, k: nat)
    requires k <= |bits|
    ensures ToNat(bits) == ToNat(bits[k..]) * Pow2(k) + ToNat(bits[..k])
  {
    if k > 0 {
      ToNatSplit(bits[1..], k - 1);
      assert bits[..k][1..] == bits[1..][..k - 1] && bits[1..][k - 1..] == bits[k..] && bits[..k][0] == bits[0];
      DoubleProduct(ToNat(bits[k..]), Pow2(k - 1));
    } else {
      assert bits[0..] == bits;
    }
  }

  lemma DoubleProduct(v: nat, p: nat)
    ensures v * (2 * p) == 2 * (v * p)
  {
  }

  /** The bits from `k` on are what a shift by `k` leaves, and the bits below `k` what a cast to `k` bits leaves. */
  lemma ShiftAndCast(bits: seq<bool>, k: nat)
    requires k <= |bits|
    ensures ToNat(bits) / Pow2(k) == ToNat(bits[k..]) && ToNat(bits) % Pow2(k) == ToNat(bits[..k])
  {
    ToNatSplit(bits, k);
    DivisionIsUnique(ToNat(bits), Pow2(k), ToNat(bits[k..]), ToNat(bits[..k]));
  }

  /** The window is the shifted number cut to sixteen bits, as the code computes it. */
  lemma ExtractBandIsShift(h: u64, bandId: nat)
    requires bandId < BAND_NUM
    ensures ExtractBand(h, bandId) == (ToNat(h) / Pow2(bandId * BAND_BITS)) % Pow2(16)
  {
    hide Pow2, ToNat;
    var lo := bandId * BAND_BITS;
    var shifted := h[lo..];
    ShiftAndCast(h, lo);
    if lo + 16 <= 64 {
      ShiftAndCast(shifted, 16);
      assert shifted[..16] == h[lo..lo + 16];
    } else {
      assert h[lo..64] == shifted && |shifted| == 8;
      PowersOfTwo();
    }
  }

  /** The number of positions in `lo..hi` at which `a` and `b` differ. */
  function Differences(a: u64, b: u64, lo: nat, hi: nat): nat
    requires lo <= hi <= 64
  {
    if lo == hi then 0 else Differences(a, b, lo, hi - 1) + Bit(a[hi - 1] != b[hi - 1])
  }

  function HammingDistance(a: u64, b: u64): nat {
    Differences(a, b, 0, 64)
  }

  /** The number of bits in which the hashes differ. */
  lemma {:induction false} DifferencesExactly(a: u64, b: u64, hi: nat)
    requires hi <= 64
    ensures Differences(a, b, 0, hi) == |set i | 0 <= i < hi && a[i] != b[i]|
  {
    if hi > 0 {
      DifferencesExactly(a, b, hi - 1);
      var before, all := set i | 0 <= i < hi - 1 && a[i] != b[i], set i | 0 <= i < hi && a[i] != b[i];
      assert all == before + if a[hi - 1] != b[hi - 1] then {hi - 1} else {};
    }
  }

  lemma DistanceExactly(a: u64, b: u64)
    ensures HammingDistance(a, b) == |set i | 0 <= i < 64 && a[i] != b[i]|
  {
    DifferencesExactly(a, b, 64);
  }

  /** The number of windows among the first `n` in which `a` and `b` agree. */
  function Agreements(a: u64, b: u64, n: nat): nat
    requires n <= BAND_NUM
  {
    if n == 0 then 0 else Agreements(a, b, n - 1) + Bit(ExtractBand(a, n - 1) == ExtractBand(b, n - 1))
  }

  lemma {:induction false} DifferencesSplit(a: u64, b: u64, lo: nat, mid: nat, hi: nat)
    requires lo <= mid <= hi <= 64
    ensures Differences(a, b, lo, hi) == Differences(a, b, lo, mid) + Differences(a, b, mid, hi)
  {
    if mid < hi {
      DifferencesSplit(a, b, lo, mid, hi - 1);
    }
  }

  lemma {:induction false} NoDifferences(a: u64, b: u64, lo: nat, hi: nat)
    requires lo <= hi <= 64
    ensures Differences(a, b, lo, hi) == 0 <==> forall i :: lo <= i < hi ==> a[i] == b[i]
  {
    if lo < hi {
      NoDifferences(a, b, lo, hi - 1);
    }
  }

  /** A window agrees exactly if no bit under it differs. */
  lemma WindowAgrees(a: u64, b: u64, w: nat)
    requires w < BAND_NUM
    ensures ExtractBand(a, w) == ExtractBand(b, w) <==> Differences(a, b, 8 * w, Min(8 * w + 16, 64)) == 0
  {
    var lo, hi := 8 * w, Min(8 * w + 16, 64);
    ToNatIsInjective(a[lo..hi], b[lo..hi]);
    NoDifferences(a, b, lo, hi);
    assert a[lo..hi] == b[lo..hi] <==> forall i :: lo <= i < hi ==> a[i] == b[i] by {
      if a[lo..hi] == b[lo..hi] {
        assert forall i :: lo <= i < hi ==> a[i] == a[lo..hi][i - lo] && b[i] == b[lo..hi][i - lo];
      }
    }
  }

  /** Windows spoiled among the first `n` cost a differing bit each, and no bit pays for more than two windows. */
  lemma {:induction false} SpoiledWindows(a: u64, b: u64, n: nat)
    requires n <= BAND_NUM
    ensures n <= Agreements(a, b, n) + Differences(a, b, 0, 8 * n)
            + Differences(a, b, Min(8, 8 * n), Min(8 * n + 8, 64))
  {
    hide ExtractBand;
    if n > 0 {
      var w := n - 1;
      SpoiledWindows(a, b, w);
      WindowAgrees(a, b, w);
      DifferencesSplit(a, b, 0, 8 * w, 8 * n);
      DifferencesSplit(a, b, 8 * w, 8 * n, Min(8 * w + 16, 64));
      DifferencesSplit(a, b, 8, 8 * n, Min(8 * n + 8, 64));
    }
  }

  /** Hashes at distance d agree on at least 8 - 2d of the eight windows. */
  lemma BandAgreementBound(a: u64, b: u64)
    ensures BAND_NUM <= Agreements(a, b, BAND_NUM) + 2 * HammingDistance(a, b)
  {
    SpoiledWindows(a, b, 8);
    DifferencesSplit(a, b, 0, 8, 64);
  }

  lemma {:induction false} SomeAgreement(a: u64, b: u64, n: nat) returns (w: nat)
    requires n <= BAND_NUM && Agreements(a, b, n) > 0
    ensures w < n && ExtractBand(a, w) == ExtractBand(b, w)
  {
    if ExtractBand(a, n - 1) == ExtractBand(b, n - 1) {
      w := n - 1;
    } else {
      w := SomeAgreement(a, b, n - 1);
    }
  }

  /** Up to distance three, some window is shared. */
  lemma NearHashesShareAWindow(a: u64, b: u64) returns (w: nat)
    requires HammingDistance(a, b) <= 3
    ensures w < BAND_NUM && ExtractBand(a, w) == ExtractBand(b, w)
  {
    BandAgreementBound(a, b);
    w := SomeAgreement(a, b, BAND_NUM);
  }

  // ----- The bound is tight -----

  function Zero(): u64 {
    seq(64, i => false)
  }

  /** Only bits 8, 24, 40 and 56 are set: one in every second byte. */
  function Spread(): u64 {
    seq(64, i => i == 8 || i == 24 || i == 40 || i == 56)
  }

  lemma OneDifference(a: u64, b: u64, lo: nat, i: nat, hi: nat)
    requires lo <= i < hi <= 64 && a[i] != b[i]
    requires forall k :: lo <= k < hi && k != i ==> a[k] == b[k]
    ensures Differences(a, b, lo, hi) == 1
  {
    DifferencesSplit(a, b, lo, i, hi);
    DifferencesSplit(a, b, i, i + 1, hi);
    NoDifferences(a, b, lo, i);
    NoDifferences(a, b, i + 1, hi);
    assert Differences(a, b, i, i) == 0;
  }

  lemma SpreadDistance()
    ensures HammingDistance(Zero(), Spread()) == 4
  {
    var a, b := Zero(), Spread();
    OneDifference(a, b, 0, 8, 16);
    OneDifference(a, b, 16, 24, 32);
    OneDifference(a, b, 32, 40, 48);
    OneDifference(a, b, 48, 56, 64);
    DifferencesSplit(a, b, 0, 16, 64);
    DifferencesSplit(a, b, 16, 32, 64);
    DifferencesSplit(a, b, 32, 48, 64);
  }

  lemma SpreadSharesNoWindow(w: nat)
    requires w < BAND_NUM
    ensures ExtractBand(Zero(), w) != ExtractBand(Spread(), w)
  {
    var lo, hi := 8 * w, Min(8 * w + 16, 64);
    var i := if w == 0 || w == 1 then 8 else if w == 2 || w == 3 then 24 else if w == 4 || w == 5 then 40 else 56;
    WindowAgrees(Zero(), Spread(), w);
    NoDifferences(Zero(), Spread(), lo, hi);
    assert lo <= i < hi;
    assert !Zero()[i] && Spread()[i];
  }

  /** At distance four, two hashes may have no window in common. */
  lemma DistanceFourSharesNothing()
    ensures HammingDistance(Zero(), Spread()) == 4
    ensures forall w: nat :: w < BAND_NUM ==> ExtractBand(Zero(), w) != ExtractBand(Spread(), w)
  {
    SpreadDistance();
    forall w: nat | w < BAND_NUM
      ensures ExtractBand(Zero(), w) != ExtractBand(Spread(), w)
    {
      SpreadSharesNoWindow(w);
    }
  }

  lemma DistanceToSelf(a: u64)
    ensures HammingDistance(a, a) == 0
  {
    NoDifferences(a, a, 0, 64);
  }

  lemma {:induction false} DifferencesCommute(a: u64, b: u64, hi: nat)
    requires hi <= 64
    ensures Differences(a, b, 0, hi) == Differences(b, a, 0, hi)
  {
    if hi > 0 {
      DifferencesCommute(a, b, hi - 1);
    }
  }
}
