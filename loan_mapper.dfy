/** `src/interface/mappers/loan.mapper.ts`: the contract response shapes the
    HTTP layer returns, the array form, the missing-date branch of the date
    formatter and the CEP formatter. */
module LoanMapper {
  import opened Wrappers
  import opened Text
  import opened ProductEntity
  import opened ApplicantEntity
  import opened AddressEntity
  import opened ContractEntity
  import opened Seqs

  /** `ContractResponseDto`: what contracting answers. */
  datatype ContractResponseDto = ContractResponseDto(contractId: string, status: string)

  /** The applicant as the contract detail shows it. */
  datatype ApplicantSummaryDto = ApplicantSummaryDto(id: string, nome: string, cpf: string, renda: real, score: int)

  /** The product as the contract detail shows it. */
  datatype ProductSummaryDto = ProductSummaryDto(
    id: string,
    nome: string,
    taxaMesBase: real,
    minParcelas: int,
    maxParcelas: int,
    cetInfo: string)

  /** `ContractDetailResponseDto`. */
  datatype ContractDetailResponseDto = ContractDetailResponseDto(
    id: string,
    applicantId: string,
    productId: string,
    valor: real,
    parcelas: int,
    taxaEfetivaMes: real,
    parcelaCalculada: real,
    status: string,
    createdAt: int,
    addressCep: string,
    addressState: string,
    addressCity: string,
    addressNeighborhood: string,
    addressStreet: string,
    addressService: string,
    applicant: Option<ApplicantSummaryDto>,
    product: Option<ProductSummaryDto>)

  /** `toContractResponseDto`. */
  function ToContractResponseDto(c: Contract): ContractResponseDto {
    ContractResponseDto(c.id, c.status)
  }

  /** The short response keeps exactly the id, under its new name, and the
      status: two contracts get the same response iff they agree on both. */
  lemma ContractResponseKeepsIdAndStatus(c: Contract, d: Contract)
    ensures ToContractResponseDto(c).contractId == c.id && ToContractResponseDto(c).status == c.status
    ensures ToContractResponseDto(c) == ToContractResponseDto(d) <==> c.id == d.id && c.status == d.status
  {
  }

  function ApplicantSummary(a: Applicant): ApplicantSummaryDto {
    ApplicantSummaryDto(a.id, a.nome, a.cpf, a.renda, a.score)
  }

  function ProductSummary(p: Product): ProductSummaryDto {
    ProductSummaryDto(p.id, p.nome, p.taxaMesBase, p.minParcelas, p.maxParcelas, p.cetInfo)
  }

  /** `toContractDetailResponseDto`: the fifteen stored fields, and each
      joined record, when present, reduced to its summary. */
  function ToContractDetailResponseDto(c: Contract): (r: ContractDetailResponseDto)
    ensures r.applicant.Some? <==> c.applicant.Some?
    ensures r.product.Some? <==> c.product.Some?
  {
    ContractDetailResponseDto(
      c.id, c.applicantId, c.productId, c.valor, c.parcelas, c.taxaEfetivaMes, c.parcelaCalculada,
      c.status, c.createdAt, c.addressCep, c.addressState, c.addressCity, c.addressNeighborhood,
      c.addressStreet, c.addressService,
      if c.applicant.Some? then Some(ApplicantSummary(c.applicant.value)) else None,
      if c.product.Some? then Some(ProductSummary(c.product.value)) else None)
  }

  /** The joined applicant with the fields the detail leaves out blanked:
      its address id, its timestamp and its own joined address. */
  function ForgetApplicant(a: Applicant): Applicant {
    a.(addressId := [], createdAt := 0, address := None)
  }

  /** The joined product with its timestamp blanked. */
  function ForgetProduct(p: Product): Product {
    p.(createdAt := 0)
  }

  /** A contract with every field the detail leaves out blanked. */
  function Forget(c: Contract): Contract {
    c.(applicant := if c.applicant.Some? then Some(ForgetApplicant(c.applicant.value)) else None,
       product := if c.product.Some? then Some(ForgetProduct(c.product.value)) else None)
  }

  /** The detail keeps exactly what `Forget` keeps: two contracts get the
      same detail iff they differ only in the applicant's address id,
      timestamp and address and in the product's timestamp. */
  lemma DetailKeepsAllButForgotten(c: Contract, d: Contract)
    ensures ToContractDetailResponseDto(c) == ToContractDetailResponseDto(d) <==> Forget(c) == Forget(d)
  {
    if ToContractDetailResponseDto(c) == ToContractDetailResponseDto(d) {
      if c.applicant.Some? {
        assert ApplicantSummary(c.applicant.value) == ApplicantSummary(d.applicant.value);
      }
      if c.product.Some? {
        assert ProductSummary(c.product.value) == ProductSummary(d.product.value);
      }
    }
  }

  /** The fifteen stored fields pass through unchanged. */
  lemma DetailCopiesStoredFields(c: Contract)
    ensures var r := ToContractDetailResponseDto(c);
            r.id == c.id && r.applicantId == c.applicantId && r.productId == c.productId
            && r.valor == c.valor && r.parcelas == c.parcelas && r.taxaEfetivaMes == c.taxaEfetivaMes
            && r.parcelaCalculada == c.parcelaCalculada && r.status == c.status && r.createdAt == c.createdAt
            && r.addressCep == c.addressCep && r.addressState == c.addressState && r.addressCity == c.addressCity
            && r.addressNeighborhood == c.addressNeighborhood && r.addressStreet == c.addressStreet
            && r.addressService == c.addressService
  {
  }

  /** `toContractDetailResponseDtoArray`: one detail per contract, in the
      same order. */
  function ToContractDetailResponseDtoArray(cs: seq<Contract>): (r: seq<ContractDetailResponseDto>)
    ensures |r| == |cs|
    ensures forall i :: 0 <= i < |cs| ==> r[i] == ToContractDetailResponseDto(cs[i])
  {
    MapSeq(ToContractDetailResponseDto, cs)
  }

  /** Mapping a concatenation of contract lists gives the concatenation of
      their details. */
  lemma DetailArrayConcat(cs: seq<Contract>, ds: seq<Contract>)
    ensures ToContractDetailResponseDtoArray(cs + ds)
            == ToContractDetailResponseDtoArray(cs) + ToContractDetailResponseDtoArray(ds)
  {
    MapConcat(ToContractDetailResponseDto, cs, ds);
  }

  /** What `formatDate` may be handed: nothing (`null` or `undefined`), a
      text or a date. */
  datatype DateInput = Absent | DateText(text: string) | DateValue(millis: int)

  /** `!date`: no value, or the empty text. */
  predicate IsMissing(d: DateInput) {
    d.Absent? || d == DateText([])
  }

  /** `formatDate`. Parsing and locale formatting are the parameter
      `render`; only the missing-date branch is the mapper's own. */
  function FormatDate(d: DateInput, render: DateInput -> string): (r: string)
    ensures IsMissing(d) ==> r == "Data não disponível"
    ensures !IsMissing(d) ==> r == render(d)
  {
    if IsMissing(d) then "Data não disponível" else render(d)
  }

  /** `formatCep`: the CEP's digits with a hyphen after the fifth, whatever
      their number. */
  function FormatCep(cep: string): (r: string)
    ensures |r| == |Digits(cep)| + 1
  {
    HyphenateCep(Digits(cep))
  }

  /** Taking the hyphen out of a formatted CEP gives back its digits, and
      the formatter agrees with the formatted CEP of an address and of a
      contract's snapshot. */
  lemma FormatCepRoundTrip(cep: string)
    ensures Remove(FormatCep(cep), '-') == Digits(cep)
    ensures forall a: Address :: a.cep == cep ==> AddressEntity.GetFormattedCep(a) == FormatCep(cep)
    ensures forall c: Contract :: c.addressCep == cep ==> ContractEntity.GetFormattedCep(c) == FormatCep(cep)
  {
    UnhyphenateCep(Digits(cep));
  }

  /** Eight digits give `ddddd-ddd`. */
  lemma FormatCepShape(cep: string)
    requires |Digits(cep)| == 8
    ensures var r := FormatCep(cep);
            |r| == 9 && r[5] == '-' && r[..5] == Digits(cep)[..5] && r[6..] == Digits(cep)[5..]
  {
  }
}
