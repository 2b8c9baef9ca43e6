/**
 * Locating the Pay-to-Anchor output of a parent transaction: the output whose
 * script is `OP_1 <0x4e73>`, a two-byte witness version 1 program, so its
 * script bytes begin 51 02 4e 73.
 */
module Anchor {
  import opened Wrappers
  import opened Hex

  /** A decoded transaction output: its value in satoshis and its script. */
  datatype Output = Output(value: nat, script: seq<Byte>)

  const AnchorMarkerHex: string := "51024e73"
  const AnchorMarker: seq<Byte> := [0x51, 0x02, 0x4e, 0x73]

  /**
   * The test both scans apply: the script's hex rendering starts with the
   * marker, which is exactly a test of the script's first four bytes.
   */
  predicate IsAnchorScript(script: seq<Byte>): (b: bool)
    ensures b <==> |script| >= 4 && script[..4] == AnchorMarker
  {
    MarkerHex();
    HexPrefixIff(script, AnchorMarker);
    StartsWith(ToHex(script), AnchorMarkerHex)
  }

  lemma MarkerHex()
    ensures ToHex(AnchorMarker) == AnchorMarkerHex
  {
    assert AnchorMarker[1..][1..][1..][1..] == [];
  }

  lemma MarkerIsAnchor()
    ensures IsAnchorScript(AnchorMarker)
  {
  }

  /** `outs.find(...)`: the first anchor output, or nothing. */
  function FindAnchor(outs: seq<Output>): (r: Option<Output>)
    ensures r.None? <==> forall k | 0 <= k < |outs| :: !IsAnchorScript(outs[k].script)
    ensures r.Some? ==> r.value in outs && IsAnchorScript(r.value.script)
  {
    if |outs| == 0 then None
    else if IsAnchorScript(outs[0].script) then Some(outs[0])
    else
      var r := FindAnchor(outs[1..]);
      assert forall k | 1 <= k < |outs| :: outs[k] == outs[1..][k - 1];
      r
  }

  /** `outs.findIndex(...)`: the index of the first anchor output, or -1. */
  function FindAnchorIndex(outs: seq<Output>): (i: int)
    ensures -1 <= i < |outs|
    ensures i == -1 <==> forall k | 0 <= k < |outs| :: !IsAnchorScript(outs[k].script)
    ensures 0 <= i ==> IsAnchorScript(outs[i].script)
    ensures forall k | 0 <= k < i :: !IsAnchorScript(outs[k].script)
  {
    if |outs| == 0 then -1
    else if IsAnchorScript(outs[0].script) then 0
    else
      var j := FindAnchorIndex(outs[1..]);
      assert forall k | 1 <= k < |outs| :: outs[k] == outs[1..][k - 1];
      if j == -1 then -1 else j + 1
  }

  /**
   * The two scans of the parent's outputs agree: `find` returns exactly the
   * output at the index `findIndex` reports, and both miss together.
   */
  lemma {:induction false} FindAgreesWithFindIndex(outs: seq<Output>)
    ensures FindAnchor(outs).None? <==> FindAnchorIndex(outs) == -1
    ensures FindAnchor(outs).Some? ==> FindAnchor(outs).value == outs[FindAnchorIndex(outs)]
  {
    if |outs| > 0 && !IsAnchorScript(outs[0].script) {
      FindAgreesWithFindIndex(outs[1..]);
    }
  }
}
