/** Numbers as big-endian octets. */
module Octets {
  type Byte = b: int | 0 <= b < 256

  type Bytes = seq<Byte>

  /** 256 to the power of k. */
  function Power(k: nat): (p: nat)
    ensures p > 0
  {
    if k == 0 then 1 else 256 * Power(k - 1)
  }

  /** The last k octets of a number. */
  function Fixed(n: nat, k: nat): (bs: Bytes)
    ensures |bs| == k
  {
    if k == 0 then [] else Fixed(n / 256, k - 1) + [n % 256]
  }

  function Number(bs: Bytes): nat {
    if bs == [] then 0 else 256 * Number(bs[..|bs| - 1]) + bs[|bs| - 1]
  }

  lemma {:induction false} NumberOfFixed(n: nat, k: nat)
    requires n < Power(k)
    ensures Number(Fixed(n, k)) == n
  {
    if k > 0 {
      NumberOfFixed(n / 256, k - 1);
      assert Fixed(n, k)[..k - 1] == Fixed(n / 256, k - 1);
    }
  }

  lemma {:induction false} FixedOfNumber(bs: Bytes)
    ensures Number(bs) < Power(|bs|)
    ensures Fixed(Number(bs), |bs|) == bs
  {
    if bs != [] {
      FixedOfNumber(bs[..|bs| - 1]);
      assert bs == bs[..|bs| - 1] + [bs[|bs| - 1]];
    }
  }

  lemma {:induction false} PowerGrows(j: nat, k: nat)
    requires j <= k
    ensures Power(j) <= Power(k)
  {
    if j < k {
      PowerGrows(j, k - 1);
    }
  }

  /** Leading zero octets add nothing. */
  lemma {:induction false} ZerosAddNothing(z: nat, bs: Bytes)
    ensures Number(Fixed(0, z) + bs) == Number(bs)
  {
    var s := Fixed(0, z) + bs;
    if bs == [] {
      PowerGrows(0, z);
      NumberOfFixed(0, z);
      assert s == Fixed(0, z);
    } else {
      ZerosAddNothing(z, bs[..|bs| - 1]);
      assert s[..|s| - 1] == Fixed(0, z) + bs[..|bs| - 1];
    }
  }
}
