/** The loan contract of `src/core/domain/entities/Contract.ts`: its status
    type, the validating constructor of `ContractEntity` and the accessors.
    The address fields are a snapshot copied at contracting time. */
module ContractEntity {
  import opened Wrappers
  import opened Text
  import opened ProductEntity
  import opened ApplicantEntity
  import opened AddressEntity
  import Price

  /** `ContractStatus`: the three statuses a contract can be in. */
  datatype ContractStatus = Pendente | Aprovado | Reprovado {
    /** The stored spelling. */
    function Name(): string {
      match this
      case Pendente => "PENDENTE"
      case Aprovado => "APROVADO"
      case Reprovado => "REPROVADO"
    }
  }

  /** A contract as stored. The status is kept as the stored text, which
      `ContractEntity` checks against `ContractStatus`. */
  datatype Contract = Contract(
    id: string,
    applicantId: string,
    productId: string,
    valor: real,
    parcelas: int,
    taxaEfetivaMes: real,
    parcelaCalculada: real,
    status: string,
    createdAt: int,
    addressCep: string,
    addressState: string,
    addressCity: string,
    addressNeighborhood: string,
    addressStreet: string,
    addressService: string,
    applicant: Option<Applicant>,
    product: Option<Product>)

  /** `isValidStatus`: one of the three stored spellings. */
  predicate IsValidStatus(status: string) {
    status == "PENDENTE" || status == "APROVADO" || status == "REPROVADO"
  }

  /** A status text is valid exactly when it names a `ContractStatus`, and
      distinct statuses have distinct names. */
  lemma IsValidStatusNamesStatus(status: string)
    ensures IsValidStatus(status) <==> exists s: ContractStatus :: s.Name() == status
    ensures forall s: ContractStatus, t: ContractStatus :: s.Name() == t.Name() ==> s == t
  {
    if IsValidStatus(status) {
      if status == "PENDENTE" {
        assert Pendente.Name() == status;
      } else if status == "APROVADO" {
        assert Aprovado.Name() == status;
      } else {
        assert Reprovado.Name() == status;
      }
    }
    assert "PENDENTE"[0] != "APROVADO"[0] && "PENDENTE"[0] != "REPROVADO"[0] && "APROVADO"[0] != "REPROVADO"[0];
  }

  /** What `ContractEntity` accepts. */
  predicate Valid(c: Contract) {
    c.id != [] && c.applicantId != [] && c.productId != []
    && c.valor > 0.0 && c.parcelas > 0 && c.taxaEfetivaMes >= 0.0 && c.parcelaCalculada > 0.0
    && IsValidStatus(c.status)
    && c.addressCep != [] && c.addressState != [] && c.addressCity != []
    && c.addressNeighborhood != [] && c.addressStreet != [] && c.addressService != []
  }

  /** `new ContractEntity(...)`: the checks in source order; the first that
      fails decides the message. */
  function NewContract(c: Contract): (r: Result<Contract>)
    ensures r.Ok? <==> Valid(c)
    ensures r.Ok? ==> r.value == c
    ensures c.id == [] ==> r == Err("Contract ID é obrigatório")
    ensures c.id != [] && c.applicantId == [] ==> r == Err("Applicant ID é obrigatório")
    ensures c.id != [] && c.applicantId != [] && c.productId == [] ==> r == Err("Product ID é obrigatório")
    ensures c.id != [] && c.applicantId != [] && c.productId != [] && c.valor <= 0.0 ==> r == Err("Valor deve ser positivo")
    ensures (c.id != [] && c.applicantId != [] && c.productId != [] && c.valor > 0.0 && c.parcelas <= 0) ==>
              r == Err("Número de parcelas deve ser positivo")
    ensures (c.id != [] && c.applicantId != [] && c.productId != [] && c.valor > 0.0 && c.parcelas > 0
             && c.taxaEfetivaMes < 0.0) ==> r == Err("Taxa efetiva mensal deve ser positiva")
    ensures (c.id != [] && c.applicantId != [] && c.productId != [] && c.valor > 0.0 && c.parcelas > 0
             && c.taxaEfetivaMes >= 0.0 && c.parcelaCalculada <= 0.0) ==> r == Err("Parcela calculada deve ser positiva")
    ensures (c.id != [] && c.applicantId != [] && c.productId != [] && c.valor > 0.0 && c.parcelas > 0
             && c.taxaEfetivaMes >= 0.0 && c.parcelaCalculada > 0.0 && !IsValidStatus(c.status)) ==> r == Err("Status inválido")
    ensures (c.id != [] && c.applicantId != [] && c.productId != [] && c.valor > 0.0 && c.parcelas > 0
             && c.taxaEfetivaMes >= 0.0 && c.parcelaCalculada > 0.0 && IsValidStatus(c.status)) ==>
              (c.addressCep == [] ==> r == Err("CEP do endereço é obrigatório")) &&
              (c.addressCep != [] && c.addressState == [] ==> r == Err("Estado do endereço é obrigatório")) &&
              (c.addressCep != [] && c.addressState != [] && c.addressCity == [] ==> r == Err("Cidade do endereço é obrigatória")) &&
              (c.addressCep != [] && c.addressState != [] && c.addressCity != [] && c.addressNeighborhood == [] ==>
                 r == Err("Bairro do endereço é obrigatório")) &&
              ((c.addressCep != [] && c.addressState != [] && c.addressCity != [] && c.addressNeighborhood != []
                && c.addressStreet == []) ==> r == Err("Rua do endereço é obrigatória")) &&
              ((c.addressCep != [] && c.addressState != [] && c.addressCity != [] && c.addressNeighborhood != []
                && c.addressStreet != [] && c.addressService == []) ==> r == Err("Serviço do endereço é obrigatório"))
  {
    if c.id == [] then Err("Contract ID é obrigatório")
    else if c.applicantId == [] then Err("Applicant ID é obrigatório")
    else if c.productId == [] then Err("Product ID é obrigatório")
    else if c.valor <= 0.0 then Err("Valor deve ser positivo")
    else if c.parcelas <= 0 then Err("Número de parcelas deve ser positivo")
    else if c.taxaEfetivaMes < 0.0 then Err("Taxa efetiva mensal deve ser positiva")
    else if c.parcelaCalculada <= 0.0 then Err("Parcela calculada deve ser positiva")
    else if !IsValidStatus(c.status) then Err("Status inválido")
    else if c.addressCep == [] then Err("CEP do endereço é obrigatório")
    else if c.addressState == [] then Err("Estado do endereço é obrigatório")
    else if c.addressCity == [] then Err("Cidade do endereço é obrigatória")
    else if c.addressNeighborhood == [] then Err("Bairro do endereço é obrigatório")
    else if c.addressStreet == [] then Err("Rua do endereço é obrigatória")
    else if c.addressService == [] then Err("Serviço do endereço é obrigatório")
    else Ok(c)
  }

  /** A constructed contract's status is one of the three statuses. */
  lemma ValidContractHasStatus(c: Contract)
    requires NewContract(c).Ok?
    ensures exists s: ContractStatus :: s.Name() == c.status
  {
    IsValidStatusNamesStatus(c.status);
  }

  /** `getTotalValue`: installment times count, unrounded. */
  function GetTotalValue(c: Contract): real {
    c.parcelaCalculada * c.parcelas as real
  }

  /** The unrounded total of a constructed contract is positive and lies
      within half a cent of what `calcTotal` gives for the same terms. */
  lemma TotalValueMatchesCalcTotal(c: Contract)
    requires NewContract(c).Ok?
    ensures GetTotalValue(c) > 0.0
    ensures Price.CalcTotal(c.parcelaCalculada, c.parcelas).Ok?
    ensures GetTotalValue(c) - 0.005 <= Price.CalcTotal(c.parcelaCalculada, c.parcelas).value <= GetTotalValue(c) + 0.005
  {
    PositiveProduct(c.parcelaCalculada, c.parcelas as real);
  }

  lemma PositiveProduct(x: real, y: real)
    requires x > 0.0 && y > 0.0
    ensures x * y > 0.0
  {
  }

  /** `getFormattedAddress`: the snapshot as one line. */
  function GetFormattedAddress(c: Contract): string {
    AddressLine(c.addressStreet, c.addressNeighborhood, c.addressCity, c.addressState)
  }

  /** `getFormattedCep`: the snapshot CEP's digits, hyphenated after the
      fifth. */
  function GetFormattedCep(c: Contract): string {
    HyphenateCep(Digits(c.addressCep))
  }

  /** Removing the hyphen gives back the snapshot CEP's digits, whatever
      their number. */
  lemma FormattedCepRoundTrip(c: Contract)
    ensures Remove(GetFormattedCep(c), '-') == Digits(c.addressCep)
    ensures |GetFormattedCep(c)| == |Digits(c.addressCep)| + 1
  {
    UnhyphenateCep(Digits(c.addressCep));
  }

  /** A contract whose snapshot was copied from an address shows the same
      one-line text and the same formatted CEP as that address. */
  lemma SnapshotFormatsLikeAddress(c: Contract, a: Address)
    requires c.addressCep == a.cep && c.addressState == a.state && c.addressCity == a.city
    requires c.addressNeighborhood == a.neighborhood && c.addressStreet == a.street
    ensures GetFormattedAddress(c) == GetFullAddress(a)
    ensures GetFormattedCep(c) == AddressEntity.GetFormattedCep(a)
  {
  }
}
