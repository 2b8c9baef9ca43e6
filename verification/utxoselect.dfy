/**
 * Choosing the UTXO that funds the child: among confirmed UTXOs worth
 * strictly more than the amount still missing, the cheapest, with ties going
 * to the one listed first.
 */
module UtxoSelect {
  import opened Wrappers

  /** An unspent output of the wallet, as the block explorer lists it. */
  datatype Utxo = Utxo(txid: string, vout: nat, value: nat, confirmed: bool)

  datatype SelectError =
    | NoConfirmedUtxos
    | NoSuitableUtxo(required: int, largest: nat)

  /** A UTXO the selection may use when `required` sats are still missing. */
  predicate Qualifies(u: Utxo, required: int)
  {
    u.confirmed && u.value > required
  }

  /** `utxos.filter(utxo => utxo.status.confirmed)`, order kept. */
  function Confirmed(us: seq<Utxo>): (cs: seq<Utxo>)
    ensures forall u :: u in cs <==> u in us && u.confirmed
  {
    if |us| == 0 then []
    else
      var init, last := us[..|us| - 1], us[|us| - 1];
      assert us == init + [last];
      if last.confirmed then Confirmed(init) + [last] else Confirmed(init)
  }

  /** `filter(utxo => utxo.value > required)`, order kept. */
  function Above(us: seq<Utxo>, required: int): (r: seq<Utxo>)
    ensures forall u :: u in r <==> u in us && u.value > required
  {
    if |us| == 0 then []
    else
      var init, last := us[..|us| - 1], us[|us| - 1];
      assert us == init + [last];
      if last.value > required then Above(init, required) + [last] else Above(init, required)
  }

  /** `Math.max(...us.map(u => u.value))`, reported when no UTXO suffices. */
  function MaxValue(us: seq<Utxo>): (m: nat)
    requires |us| > 0
    ensures forall u | u in us :: u.value <= m
    ensures exists i | 0 <= i < |us| :: us[i].value == m
  {
    if |us| == 1 then us[0].value
    else
      var rest := MaxValue(us[1..]);
      assert forall u | u in us[1..] :: u in us;
      assert forall i | 1 <= i < |us| :: us[i] == us[1..][i - 1];
      if us[0].value >= rest then us[0].value else rest
  }

  predicate SortedByValue(s: seq<Utxo>)
  {
    forall i, j | 0 <= i < j < |s| :: s[i].value <= s[j].value
  }

  /** A sorted list stays sorted with an element no larger than its head in front. */
  lemma SortedCons(x: Utxo, tail: seq<Utxo>)
    requires SortedByValue(tail)
    requires |tail| == 0 || x.value <= tail[0].value
    ensures SortedByValue([x] + tail)
  {
    var r := [x] + tail;
    forall i, j | 0 <= i < j < |r|
      ensures r[i].value <= r[j].value
    {
      if i > 0 {
        assert r[i] == tail[i - 1] && r[j] == tail[j - 1];
      } else if j > 1 {
        assert tail[0].value <= tail[j - 1].value;
      }
    }
  }

  /** Stable insertion: `u` goes after every element whose value is at most its own. */
  function Insert(sorted: seq<Utxo>, u: Utxo): (r: seq<Utxo>)
    requires SortedByValue(sorted)
    ensures SortedByValue(r)
    ensures multiset(r) == multiset(sorted) + multiset{u}
    ensures |r| == |sorted| + 1
    ensures r[0] == if |sorted| == 0 || u.value < sorted[0].value then u else sorted[0]
  {
    if |sorted| == 0 then [u]
    else if u.value < sorted[0].value then
      SortedCons(u, sorted);
      [u] + sorted
    else
      var rest := sorted[1..];
      assert SortedByValue(rest);
      var tail := Insert(rest, u);
      assert sorted == [sorted[0]] + rest;
      assert |rest| > 0 ==> sorted[0].value <= rest[0].value;
      SortedCons(sorted[0], tail);
      [sorted[0]] + tail
  }

  /**
   * `sort((a, b) => a.value - b.value)`. The engine's sort is stable, so the
   * model inserts each element after the equal-valued ones that precede it.
   */
  function SortByValue(us: seq<Utxo>): (r: seq<Utxo>)
    ensures SortedByValue(r)
    ensures multiset(r) == multiset(us)
    ensures |r| == |us|
  {
    if |us| == 0 then []
    else
      var init, last := us[..|us| - 1], us[|us| - 1];
      assert us == init + [last];
      Insert(SortByValue(init), last)
  }

  /**
   * Reference definition of the choice: the index of the first qualifying
   * UTXO whose value no other qualifying UTXO undercuts.
   */
  function CheapestIndex(us: seq<Utxo>, required: int): (r: Option<nat>)
    ensures r.None? <==> forall i | 0 <= i < |us| :: !Qualifies(us[i], required)
    ensures r.Some? ==> r.value < |us| && Qualifies(us[r.value], required)
    ensures r.Some? ==> forall j | 0 <= j < |us| && Qualifies(us[j], required) :: us[r.value].value <= us[j].value
    ensures r.Some? ==> forall j | 0 <= j < r.value && Qualifies(us[j], required) :: us[r.value].value < us[j].value
  {
    if |us| == 0 then None
    else
      var init, last := us[..|us| - 1], us[|us| - 1];
      var prev := CheapestIndex(init, required);
      assert forall i | 0 <= i < |init| :: us[i] == init[i];
      if Qualifies(last, required) && (prev.None? || last.value < us[prev.value].value)
      then Some(|us| - 1)
      else prev
  }

  /**
   * The UTXO selection of `createAndSignChildTx`: no confirmed UTXO, no suitable UTXO, or
   * the head of the suitable UTXOs sorted by value.
   */
  function SelectFunding(us: seq<Utxo>, required: int): (r: Result<Utxo, SelectError>)
    ensures r == Err(NoConfirmedUtxos) <==> forall u | u in us :: !u.confirmed
    ensures r.Err? && r.error.NoSuitableUtxo? ==>
              && r.error.required == required
              && (exists u | u in us :: u.confirmed && u.value == r.error.largest)
              && (forall u | u in us && u.confirmed :: u.value <= r.error.largest <= required)
    ensures r.Err? ==> forall u | u in us :: !Qualifies(u, required)
    ensures r.Ok? ==> r.value in us && Qualifies(r.value, required)
    ensures r.Ok? ==> forall u | u in us && Qualifies(u, required) :: r.value.value <= u.value
  {
    var confirmed := Confirmed(us);
    if |confirmed| == 0 then
      assert forall u | u in us :: u.confirmed ==> u in confirmed;
      Err(NoConfirmedUtxos)
    else
      assert confirmed[0] in confirmed;
      var suitable := Above(confirmed, required);
      if |suitable| == 0 then
        assert forall u | u in confirmed :: u.value > required ==> u in suitable;
        var largest := MaxValue(confirmed);
        Err(NoSuitableUtxo(required, largest))
      else
        var sorted := SortByValue(suitable);
        assert sorted[0] in multiset(suitable);
        assert forall u | u in suitable :: u in multiset(sorted);
        Ok(sorted[0])
  }

  /** The suitable UTXOs of a list grow by its last element exactly when that element qualifies. */
  lemma SuitableOfSnoc(init: seq<Utxo>, last: Utxo, required: int)
    ensures var f := Above(Confirmed(init), required);
            Above(Confirmed(init + [last]), required) == if Qualifies(last, required) then f + [last] else f
  {
    var us := init + [last];
    assert us[..|us| - 1] == init;
    var c := Confirmed(init);
    assert (c + [last])[..|c|] == c;
  }

  lemma CheapestOfSnoc(us: seq<Utxo>, required: int)
    requires |us| > 0
    ensures var prev := CheapestIndex(us[..|us| - 1], required);
            var last := us[|us| - 1];
            CheapestIndex(us, required)
              == if Qualifies(last, required) && (prev.None? || last.value < us[prev.value].value)
                 then Some(|us| - 1) else prev
  {
  }

  /** No UTXO is suitable exactly when the reference finds no candidate. */
  lemma SuitableEmptyIff(us: seq<Utxo>, required: int)
    ensures |Above(Confirmed(us), required)| == 0 <==> CheapestIndex(us, required).None?
  {
    var f := Above(Confirmed(us), required);
    if |f| > 0 {
      assert f[0] in f;
    }
    if CheapestIndex(us, required).Some? {
      assert us[CheapestIndex(us, required).value] in f;
    }
  }

  lemma SortSnoc(f: seq<Utxo>, last: Utxo)
    ensures SortByValue(f + [last]) == Insert(SortByValue(f), last)
  {
    var us := f + [last];
    assert us[..|us| - 1] == f;
  }

  /** Appending an element changes the sorted head only if it is strictly cheaper. */
  lemma SortHeadSnoc(f: seq<Utxo>, last: Utxo)
    ensures SortByValue(f + [last])[0]
            == if |f| == 0 || last.value < SortByValue(f)[0].value then last else SortByValue(f)[0]
  {
    SortSnoc(f, last);
    var sf := SortByValue(f);
    assert |sf| == |f|;
  }

  lemma {:induction false} SortedHeadIsCheapest(us: seq<Utxo>, required: int)
    ensures var suitable := Above(Confirmed(us), required);
            |suitable| > 0 ==> SortByValue(suitable)[0] == us[CheapestIndex(us, required).value]
  {
    if |us| > 0 {
      var init, last := us[..|us| - 1], us[|us| - 1];
      assert us == init + [last];
      SortedHeadIsCheapest(init, required);
      SuitableEmptyIff(init, required);
      SuitableOfSnoc(init, last, required);
      CheapestOfSnoc(us, required);
      var f := Above(Confirmed(init), required);
      var prev := CheapestIndex(init, required);
      if Qualifies(last, required) {
        assert Above(Confirmed(us), required) == f + [last];
        SortHeadSnoc(f, last);
        if prev.Some? {
          assert SortByValue(f)[0] == us[prev.value];
        }
      } else {
        assert Above(Confirmed(us), required) == f;
        assert CheapestIndex(us, required) == prev;
        assert prev.Some? ==> us[prev.value] == init[prev.value];
      }
    }
  }

  /**
   * The sort-and-take-first selection picks exactly the reference choice:
   * it succeeds when some confirmed UTXO exceeds the requirement, and then
   * returns the cheapest one, the earliest listed among equal values.
   */
  lemma {:induction false} SelectionIsEarliestCheapest(us: seq<Utxo>, required: int)
    ensures SelectFunding(us, required).Ok? <==> CheapestIndex(us, required).Some?
    ensures SelectFunding(us, required).Ok? ==>
              SelectFunding(us, required).value == us[CheapestIndex(us, required).value]
  {
    SuitableEmptyIff(us, required);
    SortedHeadIsCheapest(us, required);
  }

  /**
   * Selection is fully determined by the values and the listing order: any
   * index meeting the earliest-cheapest description is the one chosen.
   */
  lemma CheapestIsUnique(us: seq<Utxo>, required: int, i: nat)
    requires i < |us| && Qualifies(us[i], required)
    requires forall j | 0 <= j < |us| && Qualifies(us[j], required) :: us[i].value <= us[j].value
    requires forall j | 0 <= j < i && Qualifies(us[j], required) :: us[i].value < us[j].value
    ensures CheapestIndex(us, required) == Some(i)
  {
  }
}
