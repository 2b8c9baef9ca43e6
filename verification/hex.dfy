/**
 * Script bytes and their lower-case hexadecimal rendering, the form in which
 * the planner inspects an output script (`script.toString("hex")`), together
 * with the string prefix test it applies to that rendering.
 */
module Hex {

  type Byte = b: int | 0 <= b < 256

  const Digits: string := "0123456789abcdef"

  /** The two lower-case hex digits of one byte, high nibble first. */
  function ByteHex(b: Byte): (h: string)
    ensures |h| == 2
  {
    [Digits[b / 16], Digits[b % 16]]
  }

  /** Hex rendering of a byte string: two digits per byte, in order. */
  function ToHex(bs: seq<Byte>): (h: string)
    ensures |h| == 2 * |bs|
    ensures forall i | 0 <= i < |bs| :: h[2 * i..2 * i + 2] == ByteHex(bs[i])
  {
    if |bs| == 0 then ""
    else
      var t := ToHex(bs[1..]);
      var h := ByteHex(bs[0]) + t;
      assert forall i | 1 <= i < |bs| :: h[2 * i..2 * i + 2] == t[2 * (i - 1)..2 * (i - 1) + 2] && bs[i] == bs[1..][i - 1];
      h
  }

  /** JavaScript's `s.startsWith(prefix)`. */
  predicate StartsWith(s: string, prefix: string)
  {
    |prefix| <= |s| && s[..|prefix|] == prefix
  }

  /** JavaScript's `s.endsWith(suffix)`. */
  predicate EndsWith(s: string, suffix: string)
  {
    |suffix| <= |s| && s[|s| - |suffix|..] == suffix
  }

  lemma DigitsDistinct(i: nat, j: nat)
    requires i < 16 && j < 16 && Digits[i] == Digits[j]
    ensures i == j
  {
  }

  /** Different bytes never render to the same two digits. */
  lemma ByteHexInjective(a: Byte, b: Byte)
    requires ByteHex(a) == ByteHex(b)
    ensures a == b
  {
    assert ByteHex(a)[0] == ByteHex(b)[0] && ByteHex(a)[1] == ByteHex(b)[1];
    DigitsDistinct(a / 16, b / 16);
    DigitsDistinct(a % 16, b % 16);
  }

  /** Rendering distributes over concatenation. */
  lemma {:induction false} ToHexAppend(xs: seq<Byte>, ys: seq<Byte>)
    ensures ToHex(xs + ys) == ToHex(xs) + ToHex(ys)
  {
    if |xs| == 0 {
      assert xs + ys == ys;
    } else {
      assert (xs + ys)[1..] == xs[1..] + ys;
      ToHexAppend(xs[1..], ys);
    }
  }

  /** The rendering loses nothing: equal hex means equal bytes. */
  lemma {:induction false} ToHexInjective(xs: seq<Byte>, ys: seq<Byte>)
    requires ToHex(xs) == ToHex(ys)
    ensures xs == ys
  {
    if |xs| > 0 {
      var hx, hy := ToHex(xs), ToHex(ys);
      assert hx[..2] == ByteHex(xs[0]) && hx[2..] == ToHex(xs[1..]);
      assert hy[..2] == ByteHex(ys[0]) && hy[2..] == ToHex(ys[1..]);
      ByteHexInjective(xs[0], ys[0]);
      ToHexInjective(xs[1..], ys[1..]);
      assert xs == [xs[0]] + xs[1..] && ys == [ys[0]] + ys[1..];
    }
  }

  /**
   * A prefix test on the hex rendering is the same as a prefix test on the
   * bytes themselves.
   */
  lemma {:induction false} HexPrefixIff(bs: seq<Byte>, prefix: seq<Byte>)
    ensures StartsWith(ToHex(bs), ToHex(prefix)) <==> |prefix| <= |bs| && bs[..|prefix|] == prefix
  {
    if |prefix| <= |bs| {
      var head, tail := bs[..|prefix|], bs[|prefix|..];
      assert bs == head + tail;
      ToHexAppend(head, tail);
      var h := ToHex(bs);
      assert h[..|ToHex(prefix)|] == ToHex(head);
      if StartsWith(h, ToHex(prefix)) {
        ToHexInjective(head, prefix);
      }
    }
  }
}
