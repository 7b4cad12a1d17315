/** Offer tiering of `src/core/domain/rules/offers.ts`: a score multiplier,
    three fixed tiers of principal, and for each tier a scan of the product's
    term range in steps of six that keeps the terms whose estimated
    installment fits in 30% of the income. */
module OfferRules {
  import opened Wrappers
  import opened ProductEntity
  import opened OfferEntity

  // ---------------------------------------------------------------------
  // Score multiplier

  /** `calcularMultiplicadorScore`: a step function of the score. */
  function CalcularMultiplicadorScore(score: int): (m: real)
    ensures 0.5 <= m <= 1.5
  {
    if score >= 800 then 1.5
    else if score >= 700 then 1.3
    else if score >= 600 then 1.1
    else if score >= 500 then 0.9
    else 0.5
  }

  /** A higher score never lowers the multiplier. */
  lemma MultiplicadorMonotone(a: int, b: int)
    requires a <= b
    ensures CalcularMultiplicadorScore(a) <= CalcularMultiplicadorScore(b)
  {
  }

  /** The ends of the score range get the ends of the multiplier range. */
  lemma MultiplicadorEnds()
    ensures CalcularMultiplicadorScore(0) == 0.5
    ensures CalcularMultiplicadorScore(1000) == 1.5
  {
  }

  // ---------------------------------------------------------------------
  // Suggested terms

  /** The 30%-of-income ceiling on a monthly installment. */
  function MaxParcela(renda: real): (m: real)
    ensures renda > 0.0 ==> 0.0 < m < renda
  {
    renda * 0.3
  }

  /** `valor * (1 + taxa * t) / t <= maxParcela`, the estimate test of the
      scan. For `t == 0` JavaScript divides by zero: a positive numerator
      gives `Infinity` and zero gives `NaN`, neither of which passes, while a
      negative one gives `-Infinity`, which does. */
  predicate Fits(valor: real, taxa: real, t: int, maxParcela: real) {
    if t == 0 then valor < 0.0
    else valor * (1.0 + taxa * t as real) / t as real <= maxParcela
  }

  /** The terms `from, from + 6, ...` not beyond `upTo` that fit, in scan
      order. */
  function Scan(valor: real, taxa: real, from: int, upTo: int, maxParcela: real): seq<int>
    decreases upTo - from
  {
    if from > upTo then []
    else (if Fits(valor, taxa, from, maxParcela) then [from] else [])
         + Scan(valor, taxa, from + 6, upTo, maxParcela)
  }

  /** What `calcularParcelasSugeridas` returns: the scan, then the fallback
      that re-tests `minParcelas` when the scan found nothing. */
  function SuggestedTerms(valor: real, maxParcela: real, p: Product): seq<int> {
    var scanned := Scan(valor, p.taxaMesBase, p.minParcelas, p.maxParcelas, maxParcela);
    if |scanned| == 0 && p.minParcelas <= p.maxParcelas && Fits(valor, p.taxaMesBase, p.minParcelas, maxParcela)
    then [p.minParcelas]
    else scanned
  }

  /** A term is in the scan exactly when it is in range, on the stride of
      six from the start, and fits the ceiling. */
  lemma {:induction false} ScanMembership(valor: real, taxa: real, from: int, upTo: int, maxParcela: real, t: int)
    ensures t in Scan(valor, taxa, from, upTo, maxParcela) <==>
            from <= t <= upTo && (t - from) % 6 == 0 && Fits(valor, taxa, t, maxParcela)
    decreases upTo - from
  {
    if from <= upTo {
      ScanMembership(valor, taxa, from + 6, upTo, maxParcela, t);
      if t > from {
        assert (t - from) % 6 == 0 <==> (t - (from + 6)) % 6 == 0;
      }
    }
  }

  /** The scan pushes strictly increasing terms, none below its start. */
  lemma {:induction false} ScanAscending(valor: real, taxa: real, from: int, upTo: int, maxParcela: real)
    ensures forall i :: 0 <= i < |Scan(valor, taxa, from, upTo, maxParcela)| ==> from <= Scan(valor, taxa, from, upTo, maxParcela)[i]
    ensures forall i, j :: 0 <= i < j < |Scan(valor, taxa, from, upTo, maxParcela)| ==>
              Scan(valor, taxa, from, upTo, maxParcela)[i] < Scan(valor, taxa, from, upTo, maxParcela)[j]
    decreases upTo - from
  {
    if from <= upTo {
      ScanAscending(valor, taxa, from + 6, upTo, maxParcela);
    }
  }

  /** The fallback never adds anything: the first step of the scan already
      tested `minParcelas` against the same ceiling. */
  lemma FallbackAddsNothing(valor: real, maxParcela: real, p: Product)
    ensures SuggestedTerms(valor, maxParcela, p) == Scan(valor, p.taxaMesBase, p.minParcelas, p.maxParcelas, maxParcela)
  {
  }

  /** Every suggested term is in the product's range, on the stride of six,
      within the ceiling, and the list is strictly ascending; every term
      that meets the first three conditions is suggested. */
  lemma SuggestedTermsSpec(valor: real, maxParcela: real, p: Product)
    ensures forall t :: t in SuggestedTerms(valor, maxParcela, p) <==>
              p.minParcelas <= t <= p.maxParcelas && (t - p.minParcelas) % 6 == 0 && Fits(valor, p.taxaMesBase, t, maxParcela)
    ensures forall i, j :: 0 <= i < j < |SuggestedTerms(valor, maxParcela, p)| ==>
              SuggestedTerms(valor, maxParcela, p)[i] < SuggestedTerms(valor, maxParcela, p)[j]
  {
    FallbackAddsNothing(valor, maxParcela, p);
    forall t
      ensures t in SuggestedTerms(valor, maxParcela, p) <==>
              p.minParcelas <= t <= p.maxParcelas && (t - p.minParcelas) % 6 == 0 && Fits(valor, p.taxaMesBase, t, maxParcela)
    {
      ScanMembership(valor, p.taxaMesBase, p.minParcelas, p.maxParcelas, maxParcela, t);
    }
    ScanAscending(valor, p.taxaMesBase, p.minParcelas, p.maxParcelas, maxParcela);
  }

  /** `calcularParcelasSugeridas`: the loop over `minParcelas`,
      `minParcelas + 6`, ... up to `maxParcelas`, then the fallback. */
  method CalcularParcelasSugeridas(valor: real, maxParcela: real, produto: Product) returns (parcelas: seq<int>)
    ensures parcelas == SuggestedTerms(valor, maxParcela, produto)
  {
    parcelas := [];
    var t := produto.minParcelas;
    while t <= produto.maxParcelas
      invariant parcelas + Scan(valor, produto.taxaMesBase, t, produto.maxParcelas, maxParcela)
                == Scan(valor, produto.taxaMesBase, produto.minParcelas, produto.maxParcelas, maxParcela)
      decreases produto.maxParcelas - t
    {
      if Fits(valor, produto.taxaMesBase, t, maxParcela) {
        parcelas := parcelas + [t];
      }
      t := t + 6;
    }
    if |parcelas| == 0 && produto.minParcelas <= produto.maxParcelas {
      if Fits(valor, produto.taxaMesBase, produto.minParcelas, maxParcela) {
        parcelas := parcelas + [produto.minParcelas];
      }
    }
  }

  // ---------------------------------------------------------------------
  // Offers

  const ConservadoraText := "Oferta conservadora com baixo risco"
  const ModeradaText := "Oferta moderada com risco controlado"
  const MaximaText := "Oferta máxima disponível"

  /** The three tiers' principals: 15%, 25% and 30% of the income, scaled
      by the score multiplier. */
  function TierValor(renda: real, score: int, tier: nat): real
    requires tier < 3
  {
    renda * TierShare(tier) * CalcularMultiplicadorScore(score)
  }

  function TierShare(tier: nat): real
    requires tier < 3
  {
    if tier == 0 then 0.15 else if tier == 1 then 0.25 else 0.30
  }

  function TierText(tier: nat): string
    requires tier < 3
  {
    if tier == 0 then ConservadoraText else if tier == 1 then ModeradaText else MaximaText
  }

  /** The offer tier `tier` would make: its principal, its suggested terms
      and its fixed text. */
  function TierOffer(renda: real, score: int, p: Product, tier: nat): Offer
    requires tier < 3
  {
    var valor := TierValor(renda, score, tier);
    Offer(valor, SuggestedTerms(valor, MaxParcela(renda), p), Some(TierText(tier)))
  }

  /** One tier's block of `gerarOfertas`: nothing when the tier has no
      suggested term, otherwise the offer as `new OfferEntity` builds it. */
  function TierOffers(renda: real, score: int, p: Product, tier: nat): Result<seq<Offer>>
    requires tier < 3
  {
    var c := TierOffer(renda, score, p, tier);
    if |c.parcelasSugeridas| > 0 then
      var o :- NewOffer(c.valor, c.parcelasSugeridas, c.observacoes);
      Ok([o])
    else Ok([])
  }

  /** What `gerarOfertas` returns: the guards in source order, then the
      three tiers' blocks in order. */
  function Ofertas(renda: real, score: int, produto: Option<Product>): Result<seq<Offer>> {
    if renda <= 0.0 then Err("Renda deve ser positiva")
    else if score < 0 || score > 1000 then Err("Score deve estar entre 0 e 1000")
    else if produto.None? then Err("Produto é obrigatório")
    else
      var conservadora :- TierOffers(renda, score, produto.value, 0);
      var moderada :- TierOffers(renda, score, produto.value, 1);
      var maxima :- TierOffers(renda, score, produto.value, 2);
      Ok(conservadora + moderada + maxima)
  }

  /** `gerarOfertas`: the guards, then for each tier the suggested terms and,
      when there are any, one push of a new offer. */
  method GerarOfertas(renda: real, score: int, produto: Option<Product>) returns (r: Result<seq<Offer>>)
    ensures r == Ofertas(renda, score, produto)
  {
    if renda <= 0.0 {
      return Err("Renda deve ser positiva");
    }
    if score < 0 || score > 1000 {
      return Err("Score deve estar entre 0 e 1000");
    }
    if produto.None? {
      return Err("Produto é obrigatório");
    }
    var p := produto.value;
    var maxParcela := MaxParcela(renda);
    var ofertas: seq<Offer> := [];
    var multiplicadorScore := CalcularMultiplicadorScore(score);

    var valorConservador := renda * 0.15 * multiplicadorScore;
    var parcelasConservador := CalcularParcelasSugeridas(valorConservador, maxParcela, p);
    assert TierOffer(renda, score, p, 0) == Offer(valorConservador, parcelasConservador, Some(ConservadoraText));
    if |parcelasConservador| > 0 {
      var o :- NewOffer(valorConservador, parcelasConservador, Some(ConservadoraText));
      ofertas := ofertas + [o];
    }
    assert TierOffers(renda, score, p, 0).Ok? && ofertas == TierOffers(renda, score, p, 0).value;

    ghost var before := ofertas;
    var valorModerado := renda * 0.25 * multiplicadorScore;
    var parcelasModerado := CalcularParcelasSugeridas(valorModerado, maxParcela, p);
    assert TierOffer(renda, score, p, 1) == Offer(valorModerado, parcelasModerado, Some(ModeradaText));
    if |parcelasModerado| > 0 {
      var o :- NewOffer(valorModerado, parcelasModerado, Some(ModeradaText));
      ofertas := ofertas + [o];
    }
    assert TierOffers(renda, score, p, 1).Ok? && ofertas == before + TierOffers(renda, score, p, 1).value;

    before := ofertas;
    var valorMaximo := renda * 0.30 * multiplicadorScore;
    var parcelasMaximo := CalcularParcelasSugeridas(valorMaximo, maxParcela, p);
    assert TierOffer(renda, score, p, 2) == Offer(valorMaximo, parcelasMaximo, Some(MaximaText));
    if |parcelasMaximo| > 0 {
      var o :- NewOffer(valorMaximo, parcelasMaximo, Some(MaximaText));
      ofertas := ofertas + [o];
    }
    assert TierOffers(renda, score, p, 2).Ok? && ofertas == before + TierOffers(renda, score, p, 2).value;

    return Ok(ofertas);
  }

  /** The tier's offer when it has terms, nothing otherwise. */
  function Keep(o: Offer): seq<Offer> {
    if |o.parcelasSugeridas| > 0 then [o] else []
  }

  /** On success, `gerarOfertas` returns exactly the tiers with at least one
      suggested term, in conservative, moderate, maximum order. */
  lemma OfertasAreNonEmptyTiers(renda: real, score: int, produto: Option<Product>)
    ensures Ofertas(renda, score, produto).Ok? ==>
              Ofertas(renda, score, produto).value ==
                Keep(TierOffer(renda, score, produto.value, 0)) + Keep(TierOffer(renda, score, produto.value, 1))
                + Keep(TierOffer(renda, score, produto.value, 2))
  {
  }

  /** Hence: at most three offers, each with at least one term and one of
      the three fixed texts, and with strictly increasing principals, so the
      conservative one always comes first and the maximum one last. */
  lemma OfertasShape(renda: real, score: int, produto: Option<Product>)
    ensures Ofertas(renda, score, produto).Ok? ==>
              var os := Ofertas(renda, score, produto).value;
              |os| <= 3 &&
              (forall k :: 0 <= k < |os| ==>
                 |os[k].parcelasSugeridas| > 0 &&
                 os[k].observacoes in {Some(ConservadoraText), Some(ModeradaText), Some(MaximaText)}) &&
              (forall k, l :: 0 <= k < l < |os| ==> os[k].valor < os[l].valor)
  {
    if Ofertas(renda, score, produto).Ok? {
      var p := produto.value;
      OfertasAreNonEmptyTiers(renda, score, produto);
      TierValorsIncrease(renda, score);
      KeepShape(TierOffer(renda, score, p, 0), TierOffer(renda, score, p, 1), TierOffer(renda, score, p, 2));
    }
  }

  /** Keeping some of three offers with increasing principals and fixed
      texts keeps those properties. */
  lemma KeepShape(a: Offer, b: Offer, c: Offer)
    requires a.valor < b.valor < c.valor
    requires a.observacoes == Some(ConservadoraText) && b.observacoes == Some(ModeradaText)
    requires c.observacoes == Some(MaximaText)
    ensures var os := Keep(a) + Keep(b) + Keep(c);
            |os| <= 3 &&
            (forall k :: 0 <= k < |os| ==>
               |os[k].parcelasSugeridas| > 0 &&
               os[k].observacoes in {Some(ConservadoraText), Some(ModeradaText), Some(MaximaText)}) &&
            (forall k, l :: 0 <= k < l < |os| ==> os[k].valor < os[l].valor)
  {
  }

  lemma TierValorsIncrease(renda: real, score: int)
    requires renda > 0.0
    ensures TierValor(renda, score, 0) < TierValor(renda, score, 1) < TierValor(renda, score, 2)
  {
    var m := CalcularMultiplicadorScore(score);
    assert renda * 0.15 * m < renda * 0.25 * m < renda * 0.30 * m;
  }

  /** Every suggested term of a product that passes `ProductEntity`
      validation is at least `minParcelas >= 1`, so every offer built for it
      passes `OfferEntity` validation and `gerarOfertas` succeeds on
      admissible income and score. */
  lemma ValidProductOffersSucceed(renda: real, score: int, p: Product)
    requires renda > 0.0 && 0 <= score <= 1000 && NewProductEntity(p).Ok?
    ensures Ofertas(renda, score, Some(p)).Ok?
  {
    TierOfferValid(renda, score, p, 0);
    TierOfferValid(renda, score, p, 1);
    TierOfferValid(renda, score, p, 2);
  }

  lemma TierOfferValid(renda: real, score: int, p: Product, tier: nat)
    requires renda > 0.0 && NewProductEntity(p).Ok? && tier < 3
    ensures TierOffers(renda, score, p, tier).Ok?
  {
    var c := TierOffer(renda, score, p, tier);
    assert c.valor > 0.0;
    SuggestedTermsSpec(c.valor, MaxParcela(renda), p);
    assert forall k :: 0 <= k < |c.parcelasSugeridas| ==> c.parcelasSugeridas[k] in c.parcelasSugeridas;
  }
}
