/**
 * Fee arithmetic of the child-pays-for-parent package, in integer satoshis.
 * Virtual size is weight divided by four, rounded up, as in the
 * "Transaction size calculations" section of BIP 141.
 */
module FeeMath {

  /** Weight units budgeted for the child: anchor input, funding input, one output. */
  const EstimatedChildWeight: nat := 609

  /** `Math.ceil(weight / 4.0)`: the least virtual size that covers `weight`. */
  function VirtualBytes(weight: nat): (vb: nat)
    ensures weight <= 4 * vb < weight + 4
  {
    (weight + 3) / 4
  }

  /** `vbytes * feeRate`: the fee paying `feeRate` sat/vB on `vbytes`. */
  function Fee(vbytes: nat, feeRate: nat): (fee: nat)
    ensures vbytes > 0 ==> fee / vbytes == feeRate && fee % vbytes == 0
  {
    var fee := vbytes * feeRate;
    if vbytes == 0 then fee
    else
      DivisionOfMultiple(vbytes, feeRate);
      fee
  }

  /** Fee the package must pay: the parent plus the estimated child, at `feeRate`. */
  function RequiredFee(parentWeight: nat, feeRate: nat): (fee: nat)
    ensures var total := parentWeight + EstimatedChildWeight;
            feeRate * total <= 4 * fee && (feeRate > 0 ==> 4 * fee < feeRate * (total + 4))
    ensures feeRate > 0 ==>
              fee % feeRate == 0 && fee / feeRate == VirtualBytes(parentWeight + EstimatedChildWeight)
  {
    var total := parentWeight + EstimatedChildWeight;
    var vb := VirtualBytes(total);
    ScaledBounds(total, vb, feeRate);
    if feeRate > 0 then DivisionOfMultiple(feeRate, vb); Fee(vb, feeRate)
    else Fee(vb, feeRate)
  }

  /**
   * `Math.ceil(fee / vbytes * 100)`: the package rate in hundredths of a
   * sat/vB, the least such count that is not below the exact rate.
   */
  function PackageRateHundredths(fee: nat, vbytes: nat): (h: nat)
    requires vbytes > 0
    ensures 100 * fee <= h * vbytes
    ensures (h - 1) * vbytes < 100 * fee
  {
    CeilDiv(100 * fee, vbytes);
    (100 * fee + vbytes - 1) / vbytes
  }

  lemma DivisionOfMultiple(d: nat, q: nat)
    requires d > 0
    ensures (d * q) / d == q && (d * q) % d == 0
  {
    var n := d * q;
    var a, b := n / d, n % d;
    assert n == d * a + b && 0 <= b < d;
    assert d * (q - a) == b;
    if q - a > 0 {
      MulLe(1, q - a, d);
    } else if q - a < 0 {
      MulLe(1, a - q, d);
    }
  }

  lemma ScaledBounds(total: nat, vb: nat, feeRate: nat)
    requires total <= 4 * vb < total + 4
    ensures feeRate * total <= 4 * (vb * feeRate)
    ensures feeRate > 0 ==> 4 * (vb * feeRate) < feeRate * (total + 4)
  {
    MulLe(total, 4 * vb, feeRate);
    if feeRate > 0 {
      MulLt(4 * vb, total + 4, feeRate);
    }
  }

  lemma MulLe(a: int, b: int, c: nat)
    requires a <= b
    ensures c * a <= c * b
  {
    assert c * b - c * a == c * (b - a);
  }

  lemma MulLt(a: int, b: int, c: nat)
    requires a < b && c > 0
    ensures c * a < c * b
  {
    assert c * b - c * a == c * (b - a);
  }

  lemma CeilDiv(n: nat, d: nat)
    requires d > 0
    ensures var q := (n + d - 1) / d; n <= q * d && (q - 1) * d < n
  {
    var q, r := (n + d - 1) / d, (n + d - 1) % d;
    assert n + d - 1 == q * d + r && 0 <= r < d;
    assert (q - 1) * d == q * d - d;
  }

  /** The virtual size never shrinks as the weight grows. */
  lemma VirtualBytesMonotone(w1: nat, w2: nat)
    requires w1 <= w2
    ensures VirtualBytes(w1) <= VirtualBytes(w2)
  {
  }

  /**
   * The required fee never shrinks when the parent gets heavier or the target
   * rate goes up.
   */
  lemma RequiredFeeMonotone(w1: nat, w2: nat, r1: nat, r2: nat)
    requires w1 <= w2 && r1 <= r2
    ensures RequiredFee(w1, r1) <= RequiredFee(w2, r2)
  {
    var v1, v2 := VirtualBytes(w1 + EstimatedChildWeight), VirtualBytes(w2 + EstimatedChildWeight);
    VirtualBytesMonotone(w1 + EstimatedChildWeight, w2 + EstimatedChildWeight);
    MulLe(v1, v2, r1);
    MulLe(r1, r2, v2);
    assert v1 * r1 <= v2 * r1 <= v2 * r2;
  }

  /**
   * With a whole sat/vB target, the reported package rate is that target
   * exactly: the fee is an exact multiple of the virtual size.
   */
  lemma PackageRateOfWholeRate(vbytes: nat, feeRate: nat)
    requires vbytes > 0
    ensures PackageRateHundredths(Fee(vbytes, feeRate), vbytes) == 100 * feeRate
  {
    var h := PackageRateHundredths(Fee(vbytes, feeRate), vbytes);
    var t := 100 * feeRate;
    assert 100 * (vbytes * feeRate) == t * vbytes;
    assert t * vbytes <= h * vbytes;
    assert (h - 1) * vbytes < t * vbytes;
    if h < t {
      MulLt(h, t, vbytes);
      assert false;
    }
    if h - 1 >= t {
      MulLe(t, h - 1, vbytes);
      assert false;
    }
  }
}
