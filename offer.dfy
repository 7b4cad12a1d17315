/** The credit offer of `src/core/domain/entities/Offer.ts`: the validating
    constructor of `OfferEntity` and the installment-range text. */
module OfferEntity {
  import opened Wrappers
  import opened Text

  /** An offer: an amount and the installment counts suggested for it. */
  datatype Offer = Offer(valor: real, parcelasSugeridas: seq<int>, observacoes: Option<string>)

  /** What `OfferEntity` accepts. */
  predicate Valid(o: Offer) {
    o.valor > 0.0 && |o.parcelasSugeridas| > 0 && forall k :: 0 <= k < |o.parcelasSugeridas| ==> o.parcelasSugeridas[k] > 0
  }

  /** `new OfferEntity(valor, parcelasSugeridas, observacoes)`: the checks in
      source order, each with its own message. */
  function NewOffer(valor: real, parcelasSugeridas: seq<int>, observacoes: Option<string>): (r: Result<Offer>)
    ensures r.Ok? <==> Valid(Offer(valor, parcelasSugeridas, observacoes))
    ensures r.Ok? ==> r.value == Offer(valor, parcelasSugeridas, observacoes)
    ensures valor <= 0.0 ==> r == Err("Valor da oferta deve ser positivo")
    ensures valor > 0.0 && parcelasSugeridas == [] ==> r == Err("Deve haver pelo menos uma sugestão de parcelas")
    ensures valor > 0.0 && parcelasSugeridas != [] && (exists k :: 0 <= k < |parcelasSugeridas| && parcelasSugeridas[k] <= 0) ==>
              r == Err("Todas as parcelas sugeridas devem ser positivas")
  {
    if valor <= 0.0 then Err("Valor da oferta deve ser positivo")
    else if |parcelasSugeridas| == 0 then Err("Deve haver pelo menos uma sugestão de parcelas")
    else if exists k :: 0 <= k < |parcelasSugeridas| && parcelasSugeridas[k] <= 0 then
      Err("Todas as parcelas sugeridas devem ser positivas")
    else Ok(Offer(valor, parcelasSugeridas, observacoes))
  }

  predicate SortedAsc(s: seq<int>) {
    forall i, j :: 0 <= i < j < |s| ==> s[i] <= s[j]
  }

  /** `x` inserted into an ascending sequence at its place. */
  function Insert(x: int, s: seq<int>): (r: seq<int>)
    requires SortedAsc(s)
    ensures |r| == |s| + 1
    ensures forall y :: y in r <==> y == x || y in s
    ensures SortedAsc(r)
  {
    if s == [] then [x]
    else if x <= s[0] then [x] + s
    else
      var t := Insert(x, s[1..]);
      assert forall y :: y in s[1..] ==> s[0] <= y;
      assert forall y :: y in s <==> y == s[0] || y in s[1..] by {
        assert s == [s[0]] + s[1..];
      }
      forall k | 0 <= k < |t|
        ensures s[0] <= t[k]
      {
        assert t[k] in t;
      }
      [s[0]] + t
  }

  lemma {:induction false} InsertPermutes(x: int, s: seq<int>)
    requires SortedAsc(s)
    ensures multiset(Insert(x, s)) == multiset(s) + multiset{x}
  {
    if s != [] && x > s[0] {
      InsertPermutes(x, s[1..]);
      assert s == [s[0]] + s[1..];
    }
  }

  /** The copy `[...s].sort((a, b) => a - b)`: ascending, with the same
      elements (`SortPermutes`). */
  function SortAscending(s: seq<int>): (r: seq<int>)
    ensures |r| == |s|
    ensures forall x :: x in r <==> x in s
    ensures SortedAsc(r)
  {
    if s == [] then []
    else
      assert forall y :: y in s <==> y == s[0] || y in s[1..] by {
        assert s == [s[0]] + s[1..];
      }
      Insert(s[0], SortAscending(s[1..]))
  }

  lemma {:induction false} SortPermutes(s: seq<int>)
    ensures multiset(SortAscending(s)) == multiset(s)
  {
    if s != [] {
      SortPermutes(s[1..]);
      InsertPermutes(s[0], SortAscending(s[1..]));
      assert s == [s[0]] + s[1..];
    }
  }

  /** The first element of a sorted permutation is the least element, the
      last one the greatest. */
  lemma SortedEnds(s: seq<int>)
    requires |s| > 0
    ensures SortAscending(s)[0] in s && SortAscending(s)[|s| - 1] in s
    ensures forall x :: x in s ==> SortAscending(s)[0] <= x <= SortAscending(s)[|s| - 1]
  {
    var r := SortAscending(s);
    forall x | x in s
      ensures r[0] <= x <= r[|s| - 1]
    {
      var k :| 0 <= k < |r| && r[k] == x;
    }
  }

  /** `getParcelasText` of a constructed offer: one count gives
      `"<n> parcelas"`, two or more give `"<least> a <greatest> parcelas"`. */
  function GetParcelasText(o: Offer): (text: string)
    requires |o.parcelasSugeridas| > 0
    ensures |o.parcelasSugeridas| == 1 ==> text == IntToString(o.parcelasSugeridas[0]) + " parcelas"
    ensures |o.parcelasSugeridas| > 1 ==>
              exists lo, hi :: lo in o.parcelasSugeridas && hi in o.parcelasSugeridas &&
                (forall x :: x in o.parcelasSugeridas ==> lo <= x <= hi) &&
                text == IntToString(lo) + " a " + IntToString(hi) + " parcelas"
  {
    var s := o.parcelasSugeridas;
    if |s| == 1 then IntToString(s[0]) + " parcelas"
    else
      var sorted := SortAscending(s);
      SortedEnds(s);
      var lo, hi := sorted[0], sorted[|s| - 1];
      var text := IntToString(lo) + " a " + IntToString(hi) + " parcelas";
      assert lo in s && hi in s && (forall x :: x in s ==> lo <= x <= hi);
      text
  }

  /** The range text depends only on the least and greatest count, so any
      reordering of the suggestions gives the same text. */
  lemma ParcelasTextIgnoresOrder(o: Offer, p: Offer)
    requires |o.parcelasSugeridas| > 1 && |p.parcelasSugeridas| > 1
    requires multiset(o.parcelasSugeridas) == multiset(p.parcelasSugeridas)
    ensures GetParcelasText(o) == GetParcelasText(p)
  {
    SameEnds(o.parcelasSugeridas, p.parcelasSugeridas);
  }

  /** Sequences with the same elements sort to the same least and greatest. */
  lemma SameEnds(s: seq<int>, t: seq<int>)
    requires |s| > 0 && |t| > 0 && multiset(s) == multiset(t)
    ensures SortAscending(s)[0] == SortAscending(t)[0]
    ensures SortAscending(s)[|s| - 1] == SortAscending(t)[|t| - 1]
  {
    SameElements(s, t);
    SortedEnds(s);
    SortedEnds(t);
  }

  lemma SameElements(s: seq<int>, t: seq<int>)
    requires multiset(s) == multiset(t)
    ensures forall x :: x in s <==> x in t
  {
    forall x
      ensures x in s <==> x in t
    {
      assert x in s <==> x in multiset(s);
      assert x in t <==> x in multiset(t);
    }
  }
}
