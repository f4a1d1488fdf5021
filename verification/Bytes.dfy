/** Fixed-width integers as bytes, in both byte orders. */
module Bytes {
  import opened Prelude

  ghost function Pow256(n: nat): (p: nat)
    ensures p >= 1
  {
    if n == 0 then 1 else 256 * Pow256(n - 1)
  }

  /** The `n` low bytes of `x`, least significant first (`to_le_bytes`). */
  function ToLE(x: nat, n: nat): (s: seq<u8>)
    ensures |s| == n
  {
    if n == 0 then [] else [x % 256] + ToLE(x / 256, n - 1)
  }

  function FromLE(s: seq<u8>): (x: nat) {
    if s == [] then 0 else s[0] + 256 * FromLE(s[1..])
  }

  /** The `n` low bytes of `x`, most significant first (`to_be_bytes`). */
  function ToBE(x: nat, n: nat): (s: seq<u8>)
    ensures |s| == n
  {
    if n == 0 then [] else ToBE(x / 256, n - 1) + [x % 256]
  }

  function FromBE(s: seq<u8>): (x: nat) {
    if s == [] then 0 else 256 * FromBE(s[..|s| - 1]) + s[|s| - 1]
  }

  lemma {:induction false} FromLEBound(s: seq<u8>)
    ensures FromLE(s) < Pow256(|s|)
  {
    if s != [] { FromLEBound(s[1..]); }
  }

  lemma {:induction false} LERoundTrip(x: nat, n: nat)
    requires x < Pow256(n)
    ensures FromLE(ToLE(x, n)) == x
  {
    if n != 0 {
      LERoundTrip(x / 256, n - 1);
      assert ToLE(x, n)[1..] == ToLE(x / 256, n - 1);
    }
  }

  lemma {:induction false} LEOfFromLE(s: seq<u8>)
    ensures ToLE(FromLE(s), |s|) == s
  {
    if s != [] {
      LEOfFromLE(s[1..]);
      assert FromLE(s) % 256 == s[0] && FromLE(s) / 256 == FromLE(s[1..]);
    }
  }

  lemma {:induction false} PowStep(n: nat)
    ensures Pow256(n) == if n == 0 then 1 else 256 * Pow256(n - 1)
  {
  }

  lemma {:induction false} FromBENone()
    ensures FromBE([]) == 0
  {
  }

  lemma {:induction false} FromBEStep(front: seq<u8>, last: u8)
    ensures FromBE(front + [last]) == 256 * FromBE(front) + last
  {
    assert (front + [last])[..|front|] == front;
  }

  lemma {:induction false} DivisionFits(x: nat, p: nat)
    requires x < 256 * p
    ensures x / 256 < p && x == 256 * (x / 256) + x % 256
  {
  }

  lemma {:induction false} BERoundTrip(x: nat, n: nat)
    requires x < Pow256(n)
    ensures FromBE(ToBE(x, n)) == x
  {
    hide Pow256; hide FromBE;
    PowStep(n);
    if n == 0 {
      FromBENone();
    } else {
      DivisionFits(x, Pow256(n - 1));
      BERoundTrip(x / 256, n - 1);
      FromBEStep(ToBE(x / 256, n - 1), x % 256);
    }
  }

  lemma {:induction false} FromBEBound(s: seq<u8>)
    ensures FromBE(s) < Pow256(|s|)
  {
    if s != [] { FromBEBound(s[..|s| - 1]); }
  }

  lemma {:induction false} BEOfFromBE(s: seq<u8>)
    ensures ToBE(FromBE(s), |s|) == s
  {
    if s != [] {
      BEOfFromBE(s[..|s| - 1]);
      assert FromBE(s) % 256 == s[|s| - 1] && FromBE(s) / 256 == FromBE(s[..|s| - 1]);
    }
  }

  lemma {:induction false} Pow256Eight()
    ensures Pow256(8) == U64_MAX + 1
    ensures Pow256(4) == U32_MAX + 1
  {
    assert Pow256(2) == 256 * 256;
    assert Pow256(4) == 256 * 256 * Pow256(2);
    assert Pow256(6) == 256 * 256 * Pow256(4);
    assert Pow256(8) == 256 * 256 * Pow256(6);
  }

  /** The u64 that eight little-endian bytes hold. */
  function U64At(data: seq<u8>, at: nat): (x: u64)
    requires at + 8 <= |data|
  {
    FromLEBound(data[at..at + 8]);
    Pow256Eight();
    FromLE(data[at..at + 8])
  }

  lemma {:induction false} U64AtIs(data: seq<u8>, at: nat, x: u64)
    requires at + 8 <= |data| && data[at..at + 8] == ToLE(x, 8)
    ensures U64At(data, at) == x
  {
    Pow256Eight();
    LERoundTrip(x, 8);
  }
}
