/**
 * The child-pays-for-parent planner: from the decoded parent (its id, weight
 * and outputs), a target fee rate and the wallet's UTXOs, build the two-input,
 * one-output child that spends the parent's anchor output and a funding UTXO.
 */
module Cpfp {
  import opened Wrappers
  import opened Hex
  import opened Anchor
  import opened FeeMath
  import opened UtxoSelect

  /** What the planner reads from the decoded parent transaction. */
  datatype ParentTx = ParentTx(txid: string, weight: nat, outs: seq<Output>)

  datatype ChildInput = ChildInput(txid: string, vout: nat, value: nat, scriptPubKey: seq<Byte>)

  datatype ChildOutput = ChildOutput(value: nat, scriptPubKey: seq<Byte>)

  /** The child transaction structure together with its fee figures. */
  datatype ChildPlan = ChildPlan(
    version: int,
    locktime: nat,
    inputs: seq<ChildInput>,
    outputs: seq<ChildOutput>,
    parentWeight: nat,
    parentFee: int,
    estimatedChildWeight: nat,
    totalWeight: nat,
    totalVirtualBytes: nat,
    feeRate: nat,
    totalFee: nat,
    packageFeeRateHundredths: nat)

  /** Why no plan was produced; a failed UTXO selection carries its own reason. */
  datatype CpfpError =
    | NoAnchorOutput
    | FundingUnavailable(reason: SelectError)
    | InsufficientFunds

  const ChildVersion: int := 3
  const ChildLocktime: nat := 0

  predicate HasAnchor(parent: ParentTx)
  {
    exists k | 0 <= k < |parent.outs| :: IsAnchorScript(parent.outs[k].script)
  }

  /** The satoshis the funding UTXO must exceed: the required fee less the anchor's value. */
  function RequiredUtxoValue(parent: ParentTx, feeRate: nat): (v: int)
    requires HasAnchor(parent)
    ensures FindAnchor(parent.outs).Some?
    ensures v == RequiredFee(parent.weight, feeRate) - FindAnchor(parent.outs).value.value
  {
    FindAgreesWithFindIndex(parent.outs);
    RequiredFee(parent.weight, feeRate) - parent.outs[FindAnchorIndex(parent.outs)].value
  }

  /**
   * The planning steps of `createAndSignChildTx`. `parentFee` is whatever the
   * caller computed for the parent (0 when the explorer could not be reached).
   */
  function PlanChild(parent: ParentTx, feeRate: nat, utxos: seq<Utxo>, parentFee: int): (r: Result<ChildPlan, CpfpError>)
    ensures r == Err(NoAnchorOutput) <==> !HasAnchor(parent)
    ensures r != Err(InsufficientFunds)
    ensures r.Ok? ==> PlanShaped(parent, feeRate, parentFee, r.value)
    ensures r.Ok? ==> ValueConserved(r.value) && r.value.outputs[0].value > 0
    ensures r.Ok? ==> r.value.packageFeeRateHundredths == 100 * feeRate
  {
    if FindAnchor(parent.outs).None? then Err(NoAnchorOutput)
    else
      FindAgreesWithFindIndex(parent.outs);
      match SelectFunding(utxos, RequiredUtxoValue(parent, feeRate))
      case Err(reason) => Err(FundingUnavailable(reason))
      case Ok(u) => SpendAnchorWith(parent, feeRate, parentFee, u)
  }

  /**
   * The change step of `createAndSignChildTx`: the change left once the
   * required fee is paid from the anchor and the funding UTXO, and the plan
   * that sends it back.
   */
  function SpendAnchorWith(parent: ParentTx, feeRate: nat, parentFee: int, u: Utxo): (r: Result<ChildPlan, CpfpError>)
    requires HasAnchor(parent)
    ensures r == Err(InsufficientFunds) <==> u.value < RequiredUtxoValue(parent, feeRate)
    ensures r.Ok? ==> PlanShaped(parent, feeRate, parentFee, r.value)
    ensures r.Ok? ==> r.value.inputs[1] == ChildInput(u.txid, u.vout, u.value, [])
    ensures r.Ok? ==> ValueConserved(r.value)
    ensures r.Ok? ==> r.value.outputs[0].value == u.value - RequiredUtxoValue(parent, feeRate)
    ensures r.Ok? ==> r.value.packageFeeRateHundredths == 100 * feeRate
  {
    var totalWeight := parent.weight + EstimatedChildWeight;
    var vbytes := VirtualBytes(totalWeight);
    var requiredFee := Fee(vbytes, feeRate);
    var index := FindAnchorIndex(parent.outs);
    var anchor := parent.outs[index];
    var change := anchor.value + u.value - requiredFee;
    if change < 0 then Err(InsufficientFunds)
    else
      PackageRateOfWholeRate(vbytes, feeRate);
      Ok(ChildPlan(
        ChildVersion,
        ChildLocktime,
        [ChildInput(parent.txid, index, anchor.value, anchor.script), ChildInput(u.txid, u.vout, u.value, [])],
        [ChildOutput(change, [])],
        parent.weight,
        parentFee,
        EstimatedChildWeight,
        totalWeight,
        vbytes,
        feeRate,
        requiredFee,
        PackageRateHundredths(requiredFee, vbytes)))
  }

  /**
   * The shape every successful plan has: the parent's first anchor output as
   * input 0, some UTXO as input 1, a single output, version 3, locktime 0,
   * and fee figures derived from the parent's weight.
   */
  predicate PlanShaped(parent: ParentTx, feeRate: nat, parentFee: int, p: ChildPlan)
  {
    && p.version == 3 && p.locktime == 0
    && |p.inputs| == 2 && |p.outputs| == 1
    && (var i := p.inputs[0].vout;
        && i < |parent.outs|
        && IsAnchorScript(parent.outs[i].script)
        && (forall k | 0 <= k < i :: !IsAnchorScript(parent.outs[k].script))
        && p.inputs[0] == ChildInput(parent.txid, i, parent.outs[i].value, parent.outs[i].script))
    && p.inputs[1].scriptPubKey == [] && p.outputs[0].scriptPubKey == []
    && p.parentWeight == parent.weight && p.parentFee == parentFee
    && p.estimatedChildWeight == 609
    && p.totalWeight == parent.weight + 609
    && p.totalWeight <= 4 * p.totalVirtualBytes < p.totalWeight + 4
    && p.feeRate == feeRate
    && p.totalFee == p.totalVirtualBytes * feeRate
  }

  /** What goes in equals what comes out plus the fee. */
  predicate ValueConserved(p: ChildPlan)
  {
    && |p.inputs| == 2 && |p.outputs| == 1
    && p.inputs[0].value + p.inputs[1].value == p.outputs[0].value + p.totalFee
  }

  /**
   * The funding input is the selection's choice: a confirmed UTXO of the
   * wallet worth more than the required fee less the anchor value, the
   * cheapest such and the earliest listed among equal values.
   */
  lemma {:induction false} PlanFundsWithCheapest(parent: ParentTx, feeRate: nat, utxos: seq<Utxo>, parentFee: int)
    ensures PlanChild(parent, feeRate, utxos, parentFee).Ok? ==> HasAnchor(parent)
    ensures PlanChild(parent, feeRate, utxos, parentFee).Ok? ==>
            var p := PlanChild(parent, feeRate, utxos, parentFee).value;
            var c := CheapestIndex(utxos, RequiredUtxoValue(parent, feeRate));
            && c.Some?
            && p.inputs[1] == ChildInput(utxos[c.value].txid, utxos[c.value].vout, utxos[c.value].value, [])
            && Qualifies(utxos[c.value], RequiredUtxoValue(parent, feeRate))
            && forall u | u in utxos && Qualifies(u, RequiredUtxoValue(parent, feeRate)) :: utxos[c.value].value <= u.value
  {
    var r := PlanChild(parent, feeRate, utxos, parentFee);
    if r.Ok? {
      FindAgreesWithFindIndex(parent.outs);
      var required := RequiredUtxoValue(parent, feeRate);
      var sel := SelectFunding(utxos, required);
      assert sel.Ok? && r.value.inputs[1] == ChildInput(sel.value.txid, sel.value.vout, sel.value.value, []);
      SelectionIsEarliestCheapest(utxos, required);
    }
  }

  /**
   * The error exits, in the order the action takes them: no anchor first,
   * then no confirmed UTXO at all, then no confirmed UTXO large enough.
   */
  lemma {:induction false} PlanErrorsInOrder(parent: ParentTx, feeRate: nat, utxos: seq<Utxo>, parentFee: int)
    ensures PlanChild(parent, feeRate, utxos, parentFee) == Err(FundingUnavailable(NoConfirmedUtxos))
            <==> HasAnchor(parent) && forall u | u in utxos :: !u.confirmed
    ensures PlanChild(parent, feeRate, utxos, parentFee).Err?
            && PlanChild(parent, feeRate, utxos, parentFee).error.FundingUnavailable?
            && PlanChild(parent, feeRate, utxos, parentFee).error.reason.NoSuitableUtxo?
            <==> && HasAnchor(parent)
                 && (exists u | u in utxos :: u.confirmed)
                 && forall u | u in utxos :: !Qualifies(u, RequiredUtxoValue(parent, feeRate))
  {
    var r := PlanChild(parent, feeRate, utxos, parentFee);
    FindAgreesWithFindIndex(parent.outs);
    if HasAnchor(parent) {
      var required := RequiredUtxoValue(parent, feeRate);
      var sel := SelectFunding(utxos, required);
      assert sel.Err? ==> r == Err(FundingUnavailable(sel.error));
      assert sel.Ok? ==> r.Ok?;
    }
  }

  /** `input.prevout?.value || 0`: a missing previous-output value counts as nothing. */
  function PrevoutValue(p: Option<nat>): (v: nat)
    ensures p.None? ==> v == 0
    ensures p.Some? ==> v == p.value
  {
    if p.Some? then p.value else 0
  }

  /** Sum of the parent's input values as the explorer reports them. */
  function SumPrevouts(ps: seq<Option<nat>>): nat
  {
    if |ps| == 0 then 0 else SumPrevouts(ps[..|ps| - 1]) + PrevoutValue(ps[|ps| - 1])
  }

  function SumValues(vs: seq<nat>): nat
  {
    if |vs| == 0 then 0 else SumValues(vs[..|vs| - 1]) + vs[|vs| - 1]
  }

  function SumOutputs(outs: seq<Output>): nat
  {
    if |outs| == 0 then 0 else SumOutputs(outs[..|outs| - 1]) + outs[|outs| - 1].value
  }

  /**
   * The parent-fee computation: the two `reduce` folds, input values (missing
   * ones as 0) less output values.
   */
  method ParentFee(prevouts: seq<Option<nat>>, outs: seq<Output>) returns (fee: int)
    ensures fee == SumPrevouts(prevouts) - SumOutputs(outs)
  {
    var totalIn := 0;
    var i := 0;
    while i < |prevouts|
      invariant 0 <= i <= |prevouts|
      invariant totalIn == SumPrevouts(prevouts[..i])
    {
      assert prevouts[..i + 1][..i] == prevouts[..i];
      totalIn := totalIn + PrevoutValue(prevouts[i]);
      i := i + 1;
    }
    assert prevouts[..i] == prevouts;
    var totalOut := 0;
    var j := 0;
    while j < |outs|
      invariant 0 <= j <= |outs|
      invariant totalOut == SumOutputs(outs[..j])
    {
      assert outs[..j + 1][..j] == outs[..j];
      totalOut := totalOut + outs[j].value;
      j := j + 1;
    }
    assert outs[..j] == outs;
    fee := totalIn - totalOut;
  }

  /**
   * Counting a missing previous-output value as 0 can only understate the
   * parent's inputs, and understates nothing when every value is known.
   */
  lemma {:induction false} MissingPrevoutsUndercount(ps: seq<Option<nat>>, actual: seq<nat>)
    requires |ps| == |actual|
    requires forall i | 0 <= i < |ps| :: ps[i] == None || ps[i] == Some(actual[i])
    ensures SumPrevouts(ps) <= SumValues(actual)
    ensures (forall i | 0 <= i < |ps| :: ps[i].Some?) ==> SumPrevouts(ps) == SumValues(actual)
  {
    if |ps| > 0 {
      var n := |ps| - 1;
      assert forall i | 0 <= i < n :: ps[..n][i] == ps[i] && actual[..n][i] == actual[i];
      MissingPrevoutsUndercount(ps[..n], actual[..n]);
    }
  }

  /** The parent carried by the raw transaction the page starts with (its default `rawTx`). */
  const DefaultParent: ParentTx := ParentTx(
    "07f37a8b2690b9e9897583361f6f1380f19971dd07aef0d73ca474b88f6b84ac",
    496,
    [Output(999999000, DefaultPaymentScript), Output(240, AnchorMarker)])

  /** The parent's first output script: a witness version 1 program of 32 bytes. */
  const DefaultPaymentScript: seq<Byte> :=
    [0x51, 0x20, 0x99, 0x02, 0x11, 0xa6, 0x4e, 0xe4, 0x5b, 0xbf, 0x2e, 0x2b,
     0xac, 0xff, 0x0c, 0x15, 0xf7, 0xec, 0x7e, 0x0f, 0x8b, 0x83, 0x8b, 0xcb,
     0x71, 0x5a, 0xbb, 0x4a, 0x57, 0xaa, 0xe4, 0x12, 0x5c, 0xb5]

  /** An example wallet: two small confirmed UTXOs and a large unconfirmed one. */
  const ExampleUtxos: seq<Utxo> := [Utxo("a", 0, 30, true), Utxo("b", 1, 50, true), Utxo("c", 2, 1000, false)]

  lemma PaymentScriptIsNoAnchor()
    ensures !IsAnchorScript(DefaultPaymentScript)
  {
    assert DefaultPaymentScript[..4] != AnchorMarker by {
      assert DefaultPaymentScript[1] == 0x20;
    }
  }

  lemma AnchorIsSecondOutput(parent: ParentTx)
    requires |parent.outs| == 2
    requires !IsAnchorScript(parent.outs[0].script) && IsAnchorScript(parent.outs[1].script)
    ensures HasAnchor(parent) && FindAnchorIndex(parent.outs) == 1
  {
  }

  lemma DefaultAnchorIsSecondOutput()
    ensures HasAnchor(DefaultParent)
    ensures FindAnchorIndex(DefaultParent.outs) == 1
  {
    PaymentScriptIsNoAnchor();
    MarkerIsAnchor();
    AnchorIsSecondOutput(DefaultParent);
  }

  lemma ExampleSelection()
    ensures SelectFunding(ExampleUtxos, 37) == Ok(ExampleUtxos[1])
  {
    CheapestIsUnique(ExampleUtxos, 37, 1);
    SelectionIsEarliestCheapest(ExampleUtxos, 37);
  }

  /**
   * The default transaction's figures: at 1 sat/vB the package weighs 1105 WU,
   * 277 vB, and needs a 277-sat fee; with the 240-sat anchor at index 1 the
   * funding UTXO must exceed 37 sats.
   */
  lemma DefaultParentFigures()
    ensures HasAnchor(DefaultParent)
    ensures DefaultParent.weight + EstimatedChildWeight == 1105
    ensures VirtualBytes(1105) == 277 && RequiredFee(DefaultParent.weight, 1) == 277
    ensures RequiredUtxoValue(DefaultParent, 1) == 37
  {
    DefaultAnchorIsSecondOutput();
  }

  /**
   * The default transaction's plan, funded from an example wallet: of 30 and
   * 50 confirmed and 1000 unconfirmed sats, the 50-sat UTXO is chosen and 13
   * sats come back as change. No dust threshold stops this sub-dust change.
   */
  lemma DefaultParentPlan()
    ensures PlanChild(DefaultParent, 1, ExampleUtxos, 0)
            == Ok(ChildPlan(3, 0,
                 [ChildInput(DefaultParent.txid, 1, 240, AnchorMarker), ChildInput("b", 1, 50, [])],
                 [ChildOutput(13, [])],
                 496, 0, 609, 1105, 277, 1, 277, 100))
  {
    DefaultParentFigures();
    DefaultAnchorIsSecondOutput();
    FindAgreesWithFindIndex(DefaultParent.outs);
    ExampleSelection();
    PackageRateOfWholeRate(277, 1);
  }
}
