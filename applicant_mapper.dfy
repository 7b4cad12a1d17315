/** `src/interface/mappers/applicant.mapper.ts`: the applicant response
    shape with its optional address, the array form and the CPF
    formatter. */
module ApplicantMapper {
  import opened Wrappers
  import opened Text
  import opened AddressEntity
  import opened ApplicantEntity
  import opened Seqs
  import Cpf

  /** The address inside an applicant response: all eight fields. */
  datatype AddressDto = AddressDto(
    id: string,
    cep: string,
    state: string,
    city: string,
    neighborhood: string,
    street: string,
    service: string,
    createdAt: int)

  /** `ApplicantResponseDto`. */
  datatype ApplicantResponseDto = ApplicantResponseDto(
    id: string,
    nome: string,
    cpf: string,
    renda: real,
    score: int,
    addressId: string,
    createdAt: int,
    address: Option<AddressDto>)

  function ToAddressDto(a: Address): AddressDto {
    AddressDto(a.id, a.cep, a.state, a.city, a.neighborhood, a.street, a.service, a.createdAt)
  }

  /** `toResponseDto`: the seven applicant fields, and the address when the
      applicant was read with one. */
  function ToResponseDto(a: Applicant): (r: ApplicantResponseDto)
    ensures r.address.Some? <==> a.address.Some?
  {
    ApplicantResponseDto(a.id, a.nome, a.cpf, a.renda, a.score, a.addressId, a.createdAt,
                         if a.address.Some? then Some(ToAddressDto(a.address.value)) else None)
  }

  function FromAddressDto(d: AddressDto): Address {
    Address(d.id, d.cep, d.state, d.city, d.neighborhood, d.street, d.service, d.createdAt)
  }

  /** The applicant a response describes, field by field. */
  function FromResponseDto(d: ApplicantResponseDto): Applicant {
    Applicant(d.id, d.nome, d.cpf, d.renda, d.score, d.addressId, d.createdAt,
              if d.address.Some? then Some(FromAddressDto(d.address.value)) else None)
  }

  /** The response loses nothing, the address included: reading the
      applicant back gives the original, and every response is the
      response of its applicant. */
  lemma ResponseRoundTrip(a: Applicant, d: ApplicantResponseDto)
    ensures FromResponseDto(ToResponseDto(a)) == a
    ensures ToResponseDto(FromResponseDto(d)) == d
  {
  }

  /** `toResponseDtoArray`: one response per applicant, in the same
      order. */
  function ToResponseDtoArray(applicants: seq<Applicant>): (r: seq<ApplicantResponseDto>)
    ensures |r| == |applicants|
    ensures forall i :: 0 <= i < |applicants| ==> r[i] == ToResponseDto(applicants[i])
  {
    MapSeq(ToResponseDto, applicants)
  }

  /** The array form loses nothing either. */
  lemma ResponseArrayRoundTrip(applicants: seq<Applicant>)
    ensures MapSeq(FromResponseDto, ToResponseDtoArray(applicants)) == applicants
  {
    MapInverse(ToResponseDto, FromResponseDto, applicants);
  }

  /** `formatCpf`: the digits sliced as `ddd.ddd.ddd-rest`, whatever their
      number. */
  function FormatCpf(cpf: string): string {
    Cpf.DotDash(Digits(cpf))
  }

  /** The separators carry no digits, so cleaning the formatted text gives
      the input's digits back for any input; for eleven digits the result
      is the 14-character `ddd.ddd.ddd-dd` that the CPF rules' `formatCPF`
      also gives. */
  lemma FormatCpfAgreesWithRules(cpf: string)
    ensures Digits(FormatCpf(cpf)) == Digits(cpf)
    ensures |Digits(cpf)| == 11 ==>
              FormatCpf(cpf) == Cpf.FormatCPF(cpf) && |FormatCpf(cpf)| == 14
  {
    Cpf.DigitsOfDotDash(Digits(cpf));
    if |Digits(cpf)| == 11 {
      Cpf.DotDashShape(Digits(cpf));
    }
  }
}
