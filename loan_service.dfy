/** `src/core/application/services/LoanService.ts`: simulation of a loan
    (argument checks, lookups, the product's term range, the 30% ceiling,
    the CDI-adjusted rate and the Price-table figures), contracting (a
    simulation followed by one new contract carrying a copy of the
    applicant's address) and the two contract lookups.
    The CDI gateway and its annual-to-monthly conversion are one parameter:
    the monthly CDI rate, or the gateway's failure. */
module LoanService {
  import opened Wrappers
  import opened Text
  import opened Price
  import opened ProductEntity
  import opened ApplicantEntity
  import opened AddressEntity
  import opened ContractEntity
  import opened Repositories
  import OfferRules
  import CreditService

  /** `SimulacaoResult`: the figures a simulation reports. */
  datatype SimulacaoResult = SimulacaoResult(parcela: real, total: real, taxaEfetivaMes: real, juros: real)

  /** `ContratacaoResult`: the new contract's id and status. */
  datatype ContratacaoResult = ContratacaoResult(contractId: string, status: string)

  /** `validateSimulacaoParams`: the first failing check decides the
      message. */
  function ValidateSimulacaoParams(applicantId: string, productId: string, valor: real, parcelas: int): (r: Result<()>)
    ensures r.Ok? <==> applicantId != [] && productId != [] && valor > 0.0 && parcelas > 0
    ensures applicantId == [] ==> r == Err("ID do solicitante é obrigatório")
    ensures applicantId != [] && productId == [] ==> r == Err("ID do produto é obrigatório")
    ensures applicantId != [] && productId != [] && valor <= 0.0 ==> r == Err("Valor deve ser positivo")
    ensures applicantId != [] && productId != [] && valor > 0.0 && parcelas <= 0 ==>
              r == Err("Número de parcelas deve ser positivo")
  {
    if applicantId == [] then Err("ID do solicitante é obrigatório")
    else if productId == [] then Err("ID do produto é obrigatório")
    else if valor <= 0.0 then Err("Valor deve ser positivo")
    else if parcelas <= 0 then Err("Número de parcelas deve ser positivo")
    else Ok(())
  }

  /** The message of the range check, with both ends printed in decimal. */
  function ParcelasRangeMessage(minParcelas: int, maxParcelas: int): string {
    "Número de parcelas deve estar entre " + IntToString(minParcelas) + " e " + IntToString(maxParcelas)
  }

  /** The two term checks of `simular`: a zero end of the range (falsy in
      JavaScript) is a misconfigured product; otherwise the count must lie
      in the range. */
  function CheckParcelas(p: Product, parcelas: int): (r: Result<()>)
    ensures p.minParcelas == 0 || p.maxParcelas == 0 ==> r == Err("Produto com configuração de parcelas inválida")
    ensures p.minParcelas != 0 && p.maxParcelas != 0 && !IsValidParcelas(p, parcelas) ==>
              r == Err(ParcelasRangeMessage(p.minParcelas, p.maxParcelas))
    ensures r.Ok? <==> p.minParcelas != 0 && p.maxParcelas != 0 && IsValidParcelas(p, parcelas)
  {
    if p.minParcelas == 0 || p.maxParcelas == 0 then Err("Produto com configuração de parcelas inválida")
    else if parcelas < p.minParcelas || parcelas > p.maxParcelas then
      Err(ParcelasRangeMessage(p.minParcelas, p.maxParcelas))
    else Ok(())
  }

  /** For a product `ProductEntity` accepts, the term checks reject exactly
      the counts `isValidParcelas` rejects, always with the range message. */
  lemma CheckParcelasAgreesWithProduct(p: Product, parcelas: int)
    requires NewProductEntity(p).Ok?
    ensures CheckParcelas(p, parcelas).Ok? <==> IsValidParcelas(p, parcelas)
    ensures !IsValidParcelas(p, parcelas) ==>
              CheckParcelas(p, parcelas) == Err(ParcelasRangeMessage(p.minParcelas, p.maxParcelas))
  {
    assert p.minParcelas >= 1 && p.maxParcelas >= 1;
  }

  /** The figures of `simular` once the rate is known: the installment of
      `calcParcela`, the total of `calcTotal`, interest as total minus
      principal, each reported to the cent and the rate to four decimal
      places. Either price rule may reject. */
  function Quote(valor: real, taxa: real, parcelas: int): (r: Result<SimulacaoResult>)
    ensures r.Err? <==> CalcParcela(valor, taxa, parcelas).Err? || CalcParcela(valor, taxa, parcelas).value <= 0.0
    ensures CalcParcela(valor, taxa, parcelas).Err? ==> r == Err(CalcParcela(valor, taxa, parcelas).message)
    ensures CalcParcela(valor, taxa, parcelas).Ok? && CalcParcela(valor, taxa, parcelas).value <= 0.0 ==>
              r == Err("Parcela deve ser positiva")
    ensures r.Ok? ==>
              valor > 0.0 && taxa >= 0.0 && parcelas > 0
              && r.value.taxaEfetivaMes == Round4(taxa) && r.value.taxaEfetivaMes >= 0.0
              && WholeTenThousandths(r.value.taxaEfetivaMes) && taxa - 0.00005 < r.value.taxaEfetivaMes <= taxa + 0.00005
              && WholeCents(r.value.parcela) && WholeCents(r.value.total) && WholeCents(r.value.juros)
  {
    var parcela :- CalcParcela(valor, taxa, parcelas);
    Figures(valor, taxa, parcelas, parcela)
  }

  /** The figures once the installment is known: its total by
      `calcTotal`, interest as total minus principal, each to the cent. */
  function Figures(valor: real, taxa: real, parcelas: int, parcela: real): Result<SimulacaoResult> {
    var total :- CalcTotal(parcela, parcelas);
    var juros := total - valor;
    Ok(SimulacaoResult(Round2(parcela), Round2(total), Round4(taxa), Round2(juros)))
  }

  /** For an installment already in cents nothing is rounded away. */
  lemma FiguresOfWholeCents(valor: real, taxa: real, parcelas: int, parcela: real)
    requires parcela > 0.0 && parcelas > 0 && WholeCents(parcela)
    ensures Figures(valor, taxa, parcelas, parcela).Ok?
    ensures Figures(valor, taxa, parcelas, parcela).value.parcela == parcela
    ensures Figures(valor, taxa, parcelas, parcela).value.total == parcela * parcelas as real
    ensures WholeCents(valor) ==> Figures(valor, taxa, parcelas, parcela).value.juros == parcela * parcelas as real - valor
  {
    Round2OfWholeCents(parcela);
    TotalOfWholeCents(parcela, parcelas);
    WholeCentsTimes(parcela, parcelas);
    Round2OfWholeCents(parcela * parcelas as real);
    if WholeCents(valor) {
      WholeCentsMinus(parcela * parcelas as real, valor);
      Round2OfWholeCents(parcela * parcelas as real - valor);
    }
  }

  /** Without interest the installment is the split rounded to the cent,
      the total is the principal rounded to the cent and, for a principal
      in whole cents, the interest is zero. */
  lemma QuoteZeroRate(valor: real, parcelas: int)
    requires valor > 0.0 && parcelas > 0
    ensures Quote(valor, 0.0, parcelas).Ok?
    ensures Quote(valor, 0.0, parcelas).value.parcela == Round2(valor / parcelas as real)
    ensures Quote(valor, 0.0, parcelas).value.total == Round2(valor)
    ensures Quote(valor, 0.0, parcelas).value.taxaEfetivaMes == 0.0
    ensures WholeCents(valor) ==> Quote(valor, 0.0, parcelas).value.juros == 0.0
  {
    ZeroRateTotal(valor, parcelas);
    var parcela := CalcParcela(valor, 0.0, parcelas).value;
    assert parcela == valor / parcelas as real;
    assert parcela > 0.0 by {
      TotalOfSplit(valor, parcelas as real, parcela);
    }
    Round2Idempotent(valor);
    assert (0.0 * 10000.0 + 0.5).Floor == 0;
    if WholeCents(valor) {
      Round2OfWholeCents(valor);
      Round2OfWholeCents(0.0);
    }
  }

  /** With a positive rate the reported installment is `calcParcela`'s,
      already in cents, and the total is exactly that installment times the
      count; for a principal in whole cents the interest is exactly total
      minus principal. The quote fails only when the annuity rounds down to
      nothing. */
  lemma QuotePositiveRate(valor: real, taxa: real, parcelas: int)
    requires valor > 0.0 && taxa > 0.0 && parcelas > 0
    ensures Quote(valor, taxa, parcelas).Ok? ==>
              Quote(valor, taxa, parcelas).value.parcela == CalcParcela(valor, taxa, parcelas).value
    ensures Quote(valor, taxa, parcelas).Ok? ==>
              Quote(valor, taxa, parcelas).value.total == CalcParcela(valor, taxa, parcelas).value * parcelas as real
    ensures Quote(valor, taxa, parcelas).Ok? && WholeCents(valor) ==>
              Quote(valor, taxa, parcelas).value.juros == Quote(valor, taxa, parcelas).value.total - valor
  {
    var parcela := CalcParcela(valor, taxa, parcelas).value;
    if parcela > 0.0 {
      FiguresOfWholeCents(valor, taxa, parcelas, parcela);
    }
  }

  /** The contract `contratar` hands to the repository: the simulated rate
      and installment, status `PENDENTE`, and the six fields of the
      applicant's address copied as the snapshot. */
  function PendingContract(applicantId: string, productId: string, valor: real, parcelas: int,
                           simulacao: SimulacaoResult, address: Address): Contract
  {
    Contract([], applicantId, productId, valor, parcelas, simulacao.taxaEfetivaMes, simulacao.parcela,
             Pendente.Name(), 0, address.cep, address.state, address.city, address.neighborhood,
             address.street, address.service, None, None)
  }

  class LoanService {
    const products: ProductRepository
    const applicants: ApplicantRepository
    const contracts: ContractRepository
    const addresses: AddressRepository

    constructor (products: ProductRepository, applicants: ApplicantRepository,
                 contracts: ContractRepository, addresses: AddressRepository)
      ensures this.products == products && this.applicants == applicants
      ensures this.contracts == contracts && this.addresses == addresses
    {
      this.products := products;
      this.applicants := applicants;
      this.contracts := contracts;
      this.addresses := addresses;
    }

    /** `simular`. The argument checks, the two lookups, the term checks
        and the 30% ceiling on the plain split `valor / parcelas` all come
        before the CDI rate is fetched; the rate is the product's base rate
        plus the monthly CDI. */
    function Simular(applicantId: string, productId: string, valor: real, parcelas: int, cdiMensal: Result<real>)
      : (r: Result<SimulacaoResult>)
      reads applicants, products
      ensures ValidateSimulacaoParams(applicantId, productId, valor, parcelas).Err? ==>
                r == Err(ValidateSimulacaoParams(applicantId, productId, valor, parcelas).message)
      ensures (ValidateSimulacaoParams(applicantId, productId, valor, parcelas).Ok?
               && applicantId !in applicants.records) ==> r == Err("Solicitante não encontrado")
      ensures (ValidateSimulacaoParams(applicantId, productId, valor, parcelas).Ok?
               && applicantId in applicants.records && productId !in products.records) ==>
                r == Err("Produto não encontrado")
      ensures (ValidateSimulacaoParams(applicantId, productId, valor, parcelas).Ok?
               && applicantId in applicants.records && productId in products.records) ==>
                var a, p := applicants.records[applicantId], products.records[productId];
                (CheckParcelas(p, parcelas).Err? ==> r == Err(CheckParcelas(p, parcelas).message)) &&
                ((CheckParcelas(p, parcelas).Ok? && valor / parcelas as real > OfferRules.MaxParcela(a.renda)) ==>
                   r == Err("Parcela excede 30% da renda")) &&
                ((CheckParcelas(p, parcelas).Ok? && valor / parcelas as real <= OfferRules.MaxParcela(a.renda)) ==>
                   (cdiMensal.Err? ==> r == Err(cdiMensal.message)) &&
                   (cdiMensal.Ok? ==> r == Quote(valor, p.taxaMesBase + cdiMensal.value, parcelas)))
      ensures r.Ok? ==>
                applicantId != [] && productId != [] && valor > 0.0 && parcelas > 0
                && applicantId in applicants.records && productId in products.records
                && IsValidParcelas(products.records[productId], parcelas)
                && valor / parcelas as real <= GetMaxMonthlyPayment(applicants.records[applicantId])
                && cdiMensal.Ok?
    {
      var _ :- ValidateSimulacaoParams(applicantId, productId, valor, parcelas);
      match applicants.FindById(applicantId)
      case None => Err("Solicitante não encontrado")
      case Some(applicant) =>
        match products.FindById(productId)
        case None => Err("Produto não encontrado")
        case Some(product) =>
          var _ :- CheckParcelas(product, parcelas);
          var maxParcela := applicant.renda * 0.3;
          var parcelaEstimada := valor / parcelas as real;
          if parcelaEstimada > maxParcela then Err("Parcela excede 30% da renda")
          else
            var cdi :- cdiMensal;
            var taxaEfetivaMes := product.taxaMesBase + cdi;
            Quote(valor, taxaEfetivaMes, parcelas)
    }

    /** A simulation that succeeds passes the credit service's
        affordability test for the same applicant, amount and count; one
        that gets past the term checks but fails that test is refused for
        the 30% ceiling. */
    lemma SimulationAgreesWithPodeContratar(credit: CreditService.CreditService, applicantId: string, productId: string,
                                            valor: real, parcelas: int, cdiMensal: Result<real>)
      requires credit.applicants == applicants
      ensures Simular(applicantId, productId, valor, parcelas, cdiMensal).Ok? ==>
                credit.PodeContratar(applicantId, valor, parcelas) == Ok(true)
      ensures (ValidateSimulacaoParams(applicantId, productId, valor, parcelas).Ok?
               && applicantId in applicants.records && productId in products.records
               && CheckParcelas(products.records[productId], parcelas).Ok?
               && credit.PodeContratar(applicantId, valor, parcelas) == Ok(false)) ==>
                Simular(applicantId, productId, valor, parcelas, cdiMensal) == Err("Parcela excede 30% da renda")
    {
    }

    /** `contratar`. Nothing is written unless the simulation succeeds and
        the applicant's address is stored; then exactly one contract is
        appended: the simulated terms, status `PENDENTE` and a copy of the
        address. The applicant's lookup after the simulation cannot fail,
        since the simulation has just found them. */
    method Contratar(applicantId: string, productId: string, valor: real, parcelas: int, cdiMensal: Result<real>,
                     contractId: string, now: int)
      returns (r: Result<ContratacaoResult>)
      requires contracts.Valid() && contractId !in contracts.records && contracts.NotAfter(now)
      modifies contracts
      ensures contracts.Valid()
      ensures r.Err? ==> unchanged(contracts)
      ensures Simular(applicantId, productId, valor, parcelas, cdiMensal).Err? ==>
                r == Err(Simular(applicantId, productId, valor, parcelas, cdiMensal).message)
      ensures (Simular(applicantId, productId, valor, parcelas, cdiMensal).Ok?
               && applicants.records[applicantId].addressId !in addresses.records) ==>
                r == Err("Endereço do solicitante não encontrado")
      ensures (Simular(applicantId, productId, valor, parcelas, cdiMensal).Ok?
               && applicants.records[applicantId].addressId in addresses.records) ==>
                var c := PendingContract(applicantId, productId, valor, parcelas,
                                         Simular(applicantId, productId, valor, parcelas, cdiMensal).value,
                                         addresses.records[applicants.records[applicantId].addressId]);
                r == Ok(ContratacaoResult(contractId, "PENDENTE"))
                && contracts.records == old(contracts.records)[contractId := c.(id := contractId, createdAt := now)]
                && contracts.order == old(contracts.order) + [contractId]
      ensures r.Ok? ==> contracts.records[contractId] in contracts.FindByApplicantId(applicantId)
    {
      var simulacao :- Simular(applicantId, productId, valor, parcelas, cdiMensal);
      var applicant := applicants.records[applicantId];
      var address := addresses.FindById(applicant.addressId);
      if address.None? {
        return Err("Endereço do solicitante não encontrado");
      }
      var data := PendingContract(applicantId, productId, valor, parcelas, simulacao, address.value);
      var contract := contracts.Create(contractId, data, now);
      r := Ok(ContratacaoResult(contract.id, contract.status));
    }

    /** The contract `contratar` stores passes `ContractEntity` validation
        whenever the applicant's address passes `AddressEntity` validation,
        unless the reported installment rounded down to zero. */
    lemma PendingContractIsValid(applicantId: string, productId: string, valor: real, parcelas: int,
                                 cdiMensal: Result<real>, contractId: string, now: int)
      requires Simular(applicantId, productId, valor, parcelas, cdiMensal).Ok?
      requires applicants.records[applicantId].addressId in addresses.records
      requires AddressEntity.Valid(addresses.records[applicants.records[applicantId].addressId])
      requires contractId != []
      ensures var s := Simular(applicantId, productId, valor, parcelas, cdiMensal).value;
              var c := PendingContract(applicantId, productId, valor, parcelas, s,
                                       addresses.records[applicants.records[applicantId].addressId]);
              NewContract(c.(id := contractId, createdAt := now)).Ok? <==> s.parcela > 0.0
    {
      var p := products.records[productId];
      var s := Simular(applicantId, productId, valor, parcelas, cdiMensal).value;
      assert s == Quote(valor, p.taxaMesBase + cdiMensal.value, parcelas).value;
      assert s.taxaEfetivaMes >= 0.0;
    }

    /** `findContractById`. */
    function FindContractById(id: string): (r: Result<Contract>)
      reads contracts
      ensures id == [] ==> r == Err("ID é obrigatório")
      ensures id != [] && id !in contracts.records ==> r == Err("Contrato não encontrado")
      ensures r.Ok? <==> id != [] && id in contracts.records
      ensures r.Ok? ==> r.value == contracts.records[id]
    {
      if id == [] then Err("ID é obrigatório")
      else
        match contracts.FindById(id)
        case None => Err("Contrato não encontrado")
        case Some(contract) => Ok(contract)
    }

    /** `findContractsByApplicant`: that applicant's contracts, newest
        first, and nothing else. */
    function FindContractsByApplicant(applicantId: string): (r: Result<seq<Contract>>)
      reads contracts
      requires contracts.Valid()
      ensures applicantId == [] <==> r == Err("ID do solicitante é obrigatório")
      ensures r.Ok? <==> applicantId != []
      ensures r.Ok? ==> forall c :: c in r.value <==> c in contracts.records.Values && c.applicantId == applicantId
      ensures r.Ok? ==> Descending(r.value) && DistinctContracts(r.value)
    {
      if applicantId == [] then Err("ID do solicitante é obrigatório")
      else Ok(contracts.FindByApplicantId(applicantId))
    }
  }
}
