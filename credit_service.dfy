/** `src/core/application/services/CreditService.ts`: offers for an
    applicant and a product, the affordability test and the credit limit.
    Every operation only reads the stores, so each is a function whose
    `reads` clause names the stores it looks at. */
module CreditService {
  import opened Wrappers
  import opened Price
  import opened ProductEntity
  import opened OfferEntity
  import opened ApplicantEntity
  import opened Repositories
  import OfferRules

  /** The service's own copy of the score multiplier table. */
  function CalcularMultiplicadorScore(score: int): (m: real)
    ensures 0.5 <= m <= 1.5
  {
    if score >= 800 then 1.5
    else if score >= 700 then 1.3
    else if score >= 600 then 1.1
    else if score >= 500 then 0.9
    else 0.5
  }

  /** The copy agrees with the table of the offer rules on every score. */
  lemma MultiplierTablesAgree(score: int)
    ensures CalcularMultiplicadorScore(score) == OfferRules.CalcularMultiplicadorScore(score)
  {
  }

  /** Twelve months of income. */
  function LimiteBase(renda: real): real {
    renda * 12.0
  }

  /** Twelve months of income scaled by a multiplier, to the cent. */
  function LimiteFor(renda: real, multiplicador: real): real {
    Round2(LimiteBase(renda) * multiplicador)
  }

  /** The limit for a score is the limit for its multiplier. */
  function LimiteCredito(renda: real, score: int): real {
    LimiteFor(renda, CalcularMultiplicadorScore(score))
  }

  /** For a fixed non-negative income the limit never falls as the score
      rises. */
  lemma LimiteMonotone(renda: real, a: int, b: int)
    requires renda >= 0.0 && a <= b
    ensures LimiteCredito(renda, a) <= LimiteCredito(renda, b)
  {
    MultiplierMonotone(a, b);
    LimiteForMonotone(renda, CalcularMultiplicadorScore(a), CalcularMultiplicadorScore(b));
  }

  /** For a fixed non-negative income a larger multiplier never gives a
      smaller limit. */
  lemma LimiteForMonotone(renda: real, m: real, n: real)
    requires renda >= 0.0 && m <= n
    ensures LimiteFor(renda, m) <= LimiteFor(renda, n)
  {
    assert LimiteBase(renda) * m <= LimiteBase(renda) * n;
    Round2Monotone(LimiteBase(renda) * m, LimiteBase(renda) * n);
  }

  /** The service's table is monotone because the offer rules' table is. */
  lemma MultiplierMonotone(a: int, b: int)
    requires a <= b
    ensures CalcularMultiplicadorScore(a) <= CalcularMultiplicadorScore(b)
  {
    MultiplierTablesAgree(a);
    MultiplierTablesAgree(b);
    OfferRules.MultiplicadorMonotone(a, b);
  }

  /** The applicant's own ceiling on a monthly installment is the one the
      offer rules and the simulation apply: three tenths of the income, so
      it grows with the income. */
  lemma MaxMonthlyPaymentIsOfferCeiling(a: Applicant, b: Applicant)
    ensures GetMaxMonthlyPayment(a) == OfferRules.MaxParcela(a.renda)
    ensures GetMaxMonthlyPayment(a) * 10.0 == a.renda * 3.0
    ensures a.renda <= b.renda ==> GetMaxMonthlyPayment(a) <= GetMaxMonthlyPayment(b)
  {
  }

  /** The limit lies between six and eighteen months of a non-negative
      income, give or take half a cent. */
  lemma LimiteBounds(renda: real, score: int)
    requires renda >= 0.0
    ensures renda * 6.0 - 0.005 < LimiteCredito(renda, score) <= renda * 18.0 + 0.005
  {
    var x := LimiteBase(renda);
    var m := CalcularMultiplicadorScore(score);
    ScaleMonotone(x, 0.5, m);
    ScaleMonotone(x, m, 1.5);
    assert x * 0.5 == renda * 6.0 && x * 1.5 == renda * 18.0;
  }

  lemma ScaleMonotone(x: real, m: real, n: real)
    requires x >= 0.0 && m <= n
    ensures x * m <= x * n
  {
  }

  class CreditService {
    const products: ProductRepository
    const applicants: ApplicantRepository

    constructor (products: ProductRepository, applicants: ApplicantRepository)
      ensures this.products == products && this.applicants == applicants
    {
      this.products := products;
      this.applicants := applicants;
    }

    /** `gerarOfertasPara`: the id checks, the two lookups, then the offer
        rules on the stored income and score; an empty list is an error, so
        success means one to three offers, each with at least one term,
        in order of increasing principal. */
    function GerarOfertasPara(applicantId: string, productId: string): (r: Result<seq<Offer>>)
      reads applicants, products
      ensures applicantId == [] ==> r == Err("ID do solicitante é obrigatório")
      ensures applicantId != [] && productId == [] ==> r == Err("ID do produto é obrigatório")
      ensures applicantId != [] && productId != [] && applicantId !in applicants.records ==>
                r == Err("Solicitante não encontrado")
      ensures (applicantId != [] && productId != [] && applicantId in applicants.records
               && productId !in products.records) ==> r == Err("Produto não encontrado")
      ensures (applicantId != [] && productId != [] && applicantId in applicants.records
               && productId in products.records) ==>
                var a, p := applicants.records[applicantId], products.records[productId];
                (OfferRules.Ofertas(a.renda, a.score, Some(p)).Err? ==> r == OfferRules.Ofertas(a.renda, a.score, Some(p))) &&
                (OfferRules.Ofertas(a.renda, a.score, Some(p)) == Ok([]) ==>
                   r == Err("Nenhuma oferta disponível para este solicitante e produto")) &&
                (OfferRules.Ofertas(a.renda, a.score, Some(p)).Ok? && OfferRules.Ofertas(a.renda, a.score, Some(p)).value != [] ==>
                   r == OfferRules.Ofertas(a.renda, a.score, Some(p)))
      ensures r.Ok? ==>
                1 <= |r.value| <= 3
                && r.value == OfferRules.Ofertas(applicants.records[applicantId].renda, applicants.records[applicantId].score,
                                                 Some(products.records[productId])).value
                && (forall k :: 0 <= k < |r.value| ==> |r.value[k].parcelasSugeridas| > 0)
                && (forall k, l :: 0 <= k < l < |r.value| ==> r.value[k].valor < r.value[l].valor)
    {
      if applicantId == [] then Err("ID do solicitante é obrigatório")
      else if productId == [] then Err("ID do produto é obrigatório")
      else
        match applicants.FindById(applicantId)
        case None => Err("Solicitante não encontrado")
        case Some(applicant) =>
          match products.FindById(productId)
          case None => Err("Produto não encontrado")
          case Some(product) =>
            OfferRules.OfertasShape(applicant.renda, applicant.score, Some(product));
            var ofertas :- OfferRules.Ofertas(applicant.renda, applicant.score, Some(product));
            if |ofertas| == 0 then Err("Nenhuma oferta disponível para este solicitante e produto")
            else Ok(ofertas)
    }

    /** An applicant with admissible income and score always gets offers for
        a product that passes `ProductEntity` validation, unless every tier
        comes out without terms. */
    lemma OffersForValidProduct(applicantId: string, productId: string)
      requires applicantId != [] && productId != []
      requires applicantId in applicants.records && productId in products.records
      requires applicants.records[applicantId].renda > 0.0 && 0 <= applicants.records[applicantId].score <= 1000
      requires NewProductEntity(products.records[productId]).Ok?
      ensures GerarOfertasPara(applicantId, productId).Ok? ||
              GerarOfertasPara(applicantId, productId) == Err("Nenhuma oferta disponível para este solicitante e produto")
    {
      var a, p := applicants.records[applicantId], products.records[productId];
      OfferRules.ValidProductOffersSucceed(a.renda, a.score, p);
    }

    /** `podeContratar`: the argument checks, the lookup, then whether the
        plain split `valor / parcelas` fits the applicant's 30% ceiling. */
    function PodeContratar(applicantId: string, valor: real, parcelas: int): (r: Result<bool>)
      reads applicants
      ensures applicantId == [] ==> r == Err("ID do solicitante é obrigatório")
      ensures applicantId != [] && valor <= 0.0 ==> r == Err("Valor deve ser positivo")
      ensures applicantId != [] && valor > 0.0 && parcelas <= 0 ==> r == Err("Número de parcelas deve ser positivo")
      ensures applicantId != [] && valor > 0.0 && parcelas > 0 && applicantId !in applicants.records ==>
                r == Err("Solicitante não encontrado")
      ensures r.Ok? <==> applicantId != [] && valor > 0.0 && parcelas > 0 && applicantId in applicants.records
      ensures r.Ok? ==> (r.value <==> valor / parcelas as real <= GetMaxMonthlyPayment(applicants.records[applicantId]))
    {
      if applicantId == [] then Err("ID do solicitante é obrigatório")
      else if valor <= 0.0 then Err("Valor deve ser positivo")
      else if parcelas <= 0 then Err("Número de parcelas deve ser positivo")
      else
        match applicants.FindById(applicantId)
        case None => Err("Solicitante não encontrado")
        case Some(applicant) =>
          var maxParcela := applicant.renda * 0.3;
          var parcelaEstimada := valor / parcelas as real;
          Ok(parcelaEstimada <= maxParcela)
    }

    /** `calcularLimiteCredito`: the id check, the lookup, then the limit of
        the stored income and score. */
    function CalcularLimiteCredito(applicantId: string): (r: Result<real>)
      reads applicants
      ensures applicantId == [] ==> r == Err("ID do solicitante é obrigatório")
      ensures applicantId != [] && applicantId !in applicants.records ==> r == Err("Solicitante não encontrado")
      ensures r.Ok? <==> applicantId != [] && applicantId in applicants.records
      ensures r.Ok? ==>
                var a := applicants.records[applicantId];
                WholeCents(r.value) && r.value == LimiteCredito(a.renda, a.score)
    {
      if applicantId == [] then Err("ID do solicitante é obrigatório")
      else
        match applicants.FindById(applicantId)
        case None => Err("Solicitante não encontrado")
        case Some(applicant) =>
          var multiplicadorScore := CalcularMultiplicadorScore(applicant.score);
          var limiteBase := LimiteBase(applicant.renda);
          var limiteFinal := limiteBase * multiplicadorScore;
          Ok(Round2(limiteFinal))
    }
  }
}
