/** `src/core/application/services/ApplicantService.ts`: registration of an
    applicant (input checks, CPF check, duplicate check, address
    resolution, initial score), lookups by id and by CPF, and the score
    update. */
module ApplicantService {
  import opened Wrappers
  import opened Text
  import Cpf
  import opened AddressEntity
  import opened ApplicantEntity
  import opened Repositories
  import AddressService

  /** `CreateApplicantData`: what a registration form submits. */
  datatype CreateApplicantData = CreateApplicantData(nome: string, cpf: string, cep: string, renda: real)

  /** `validateApplicantData`: the first failing check decides the message. */
  function ValidateApplicantData(data: CreateApplicantData): (r: Result<()>)
    ensures r.Ok? <==> |Trim(data.nome)| >= 2 && data.cpf != [] && data.cep != [] && data.renda > 0.0
    ensures |Trim(data.nome)| < 2 ==> r == Err("Nome deve ter pelo menos 2 caracteres")
    ensures |Trim(data.nome)| >= 2 && data.cpf == [] ==> r == Err("CPF é obrigatório")
    ensures |Trim(data.nome)| >= 2 && data.cpf != [] && data.cep == [] ==> r == Err("CEP é obrigatório")
    ensures |Trim(data.nome)| >= 2 && data.cpf != [] && data.cep != [] && data.renda <= 0.0 ==>
              r == Err("Renda deve ser positiva")
  {
    if data.nome == [] || |Trim(data.nome)| < 2 then Err("Nome deve ter pelo menos 2 caracteres")
    else if data.cpf == [] then Err("CPF é obrigatório")
    else if data.cep == [] then Err("CEP é obrigatório")
    else if data.renda <= 0.0 then Err("Renda deve ser positiva")
    else Ok(())
  }

  /** `calculateInitialScore`: a step function of the monthly income. */
  function CalculateInitialScore(renda: real): (score: int)
    ensures 550 <= score <= 750
  {
    if renda >= 10000.0 then 750
    else if renda >= 5000.0 then 700
    else if renda >= 3000.0 then 650
    else if renda >= 1500.0 then 600
    else 550
  }

  /** A higher income never gets a lower initial score, and every initial
      score lies in the range `ApplicantEntity` accepts. */
  lemma InitialScoreMonotone(a: real, b: real)
    requires a <= b
    ensures CalculateInitialScore(a) <= CalculateInitialScore(b)
    ensures 0 <= CalculateInitialScore(a) <= 1000
  {
  }

  /** What `cadastrarSolicitante` hands to the repository: trimmed name,
      digit-only CPF, the income, the initial score and the address id. */
  function Registration(data: CreateApplicantData, addressId: string): Applicant {
    Applicant([], Trim(data.nome), Cpf.CleanCPF(data.cpf), data.renda, CalculateInitialScore(data.renda), addressId, 0, None)
  }

  /** A registration that passed the service's checks also passes
      `ApplicantEntity` once the store gives it an id, provided the address
      id is not empty. */
  lemma RegistrationIsValidApplicant(data: CreateApplicantData, addressId: string, id: string, now: int)
    requires ValidateApplicantData(data).Ok? && Cpf.ValidCpf(data.cpf)
    requires id != [] && addressId != []
    ensures NewApplicant(Registration(data, addressId).(id := id, createdAt := now)).Ok?
  {
    var a := Registration(data, addressId).(id := id, createdAt := now);
    Cpf.ValidIffCleanValid(data.cpf);
    CpfOkAgreesWithRules(a.cpf);
    assert a.nome != [];
  }

  class ApplicantService {
    const applicants: ApplicantRepository
    const addressService: AddressService.AddressService

    constructor (applicants: ApplicantRepository, addressService: AddressService.AddressService)
      ensures this.applicants == applicants && this.addressService == addressService
    {
      this.applicants := applicants;
      this.addressService := addressService;
    }

    /** Both stores are consistent and every stored CPF is digits only. */
    predicate Valid()
      reads this, applicants, addressService, addressService.addresses
    {
      applicants.Valid() && addressService.addresses.Valid()
      && forall id :: id in applicants.records ==> AllDigits(applicants.records[id].cpf)
    }

    /** In a consistent store no two applicants share a cleaned CPF. */
    lemma CleanCpfsUnique(id1: string, id2: string)
      requires Valid()
      requires id1 in applicants.records && id2 in applicants.records
      requires Cpf.CleanCPF(applicants.records[id1].cpf) == Cpf.CleanCPF(applicants.records[id2].cpf)
      ensures id1 == id2
    {
      var c1, c2 := applicants.records[id1].cpf, applicants.records[id2].cpf;
      if c1 != [] {
        DigitsOfAllDigits(c1);
      }
      if c2 != [] {
        DigitsOfAllDigits(c2);
      }
      assert c1 == c2;
    }

    /** `cadastrarSolicitante`. The input checks, the CPF check, the
        duplicate check and the address lookup each reject before anything
        is written; on success the address is resolved or created and
        exactly one applicant is added, carrying `Registration`. */
    method CadastrarSolicitante(data: CreateApplicantData, getAddressByZip: string -> Result<Option<AddressLike>>,
                                applicantId: string, addressId: string, now: int)
      returns (r: Result<Applicant>)
      requires Valid()
      requires applicantId !in applicants.records && addressId !in addressService.addresses.records
      modifies applicants, addressService.addresses
      ensures Valid()
      ensures r.Err? ==> unchanged(applicants) && unchanged(addressService.addresses)
      ensures ValidateApplicantData(data).Err? ==> r == Err(ValidateApplicantData(data).message)
      ensures ValidateApplicantData(data).Ok? && !Cpf.ValidCpf(data.cpf) ==> r == Err("CPF inválido")
      ensures (ValidateApplicantData(data).Ok? && Cpf.ValidCpf(data.cpf)
               && old(applicants.FindByCpf(Cpf.CleanCPF(data.cpf))).Some?) ==> r == Err("CPF já cadastrado")
      ensures (ValidateApplicantData(data).Ok? && Cpf.ValidCpf(data.cpf)
               && old(applicants.FindByCpf(Cpf.CleanCPF(data.cpf))).None?) ==>
                (AddressService.LookupZip(data.cep, getAddressByZip).Err? ==>
                   r == Err(AddressService.LookupZip(data.cep, getAddressByZip).message)) &&
                (AddressService.LookupZip(data.cep, getAddressByZip).Ok? ==> r.Ok?)
      ensures r.Ok? ==>
                r.value == Registration(data, r.value.addressId).(id := applicantId, createdAt := now)
                && applicants.records == old(applicants.records)[applicantId := r.value]
                && r.value.addressId in addressService.addresses.records
                && Fields(addressService.addresses.records[r.value.addressId]) == AddressService.LookupZip(data.cep, getAddressByZip).value
      ensures r.Ok? ==>
                var d := AddressService.LookupZip(data.cep, getAddressByZip).value;
                (old(addressService.addresses.FindByUniqueFields(d)).Some? ==>
                   r.value.addressId == old(addressService.addresses.FindByUniqueFields(d)).value.id
                   && addressService.addresses.records == old(addressService.addresses.records))
                && (old(addressService.addresses.FindByUniqueFields(d)).None? ==>
                   r.value.addressId == addressId
                   && addressService.addresses.records == old(addressService.addresses.records)[
                        addressId := Address(addressId, d.cep, d.state, d.city, d.neighborhood, d.street, d.service, now)])
    {
      var _ :- ValidateApplicantData(data);
      var cpfOk := Cpf.IsValidCPF(data.cpf);
      if !cpfOk {
        return Err("CPF inválido");
      }
      var existingApplicant := applicants.FindByCpf(Cpf.CleanCPF(data.cpf));
      if existingApplicant.Some? {
        return Err("CPF já cadastrado");
      }
      var address :- addressService.ResolveOrCreateByZip(data.cep, getAddressByZip, addressId, now);
      var score := CalculateInitialScore(data.renda);
      var payload := Applicant([], Trim(data.nome), Cpf.CleanCPF(data.cpf), data.renda, score, address.id, 0, None);
      assert address.id in addressService.addresses.records;
      r := applicants.Create(applicantId, payload, now);
      forall id | id in applicants.records
        ensures AllDigits(applicants.records[id].cpf)
      {
        if id != applicantId {
          assert applicants.records[id] == old(applicants.records)[id];
        }
      }
    }

    /** `findById`. */
    function FindById(id: string): (r: Result<Applicant>)
      reads applicants
      requires applicants.Valid()
      ensures id == [] ==> r == Err("ID é obrigatório")
      ensures id != [] && id !in applicants.records ==> r == Err("Solicitante não encontrado")
      ensures r.Ok? <==> id != [] && id in applicants.records
      ensures r.Ok? ==> r.value == applicants.records[id] && r.value.id == id
    {
      if id == [] then Err("ID é obrigatório")
      else
        match applicants.FindById(id)
        case None => Err("Solicitante não encontrado")
        case Some(applicant) => Ok(applicant)
    }

    /** `findByCpf`: the lookup uses the cleaned CPF. */
    function FindByCpf(cpf: string): (r: Result<Applicant>)
      reads applicants
      requires applicants.Valid()
      ensures cpf == [] ==> r == Err("CPF é obrigatório")
      ensures r.Ok? <==> cpf != [] && exists id :: id in applicants.records && applicants.records[id].cpf == Cpf.CleanCPF(cpf)
      ensures cpf != [] && r.Err? ==> r == Err("Solicitante não encontrado")
      ensures r.Ok? ==> r.value in applicants.records.Values && r.value.cpf == Cpf.CleanCPF(cpf)
    {
      if cpf == [] then Err("CPF é obrigatório")
      else
        var cleanCpfValue := Cpf.CleanCPF(cpf);
        match applicants.FindByCpf(cleanCpfValue)
        case None => Err("Solicitante não encontrado")
        case Some(applicant) => Ok(applicant)
    }

    /** A CPF typed with or without its dots and hyphen finds the same
        applicant. */
    lemma FindByCpfIgnoresFormatting(cpf: string)
      requires applicants.Valid() && cpf != []
      ensures FindByCpf(Cpf.FormatCPF(cpf)) == FindByCpf(cpf)
    {
      Cpf.CleanFormatRoundTrip(cpf);
      if |Digits(cpf)| == 11 {
        Cpf.DotDashShape(Digits(cpf));
      }
    }

    /** `updateScore`: only the score of an existing applicant changes. */
    method UpdateScore(id: string, score: int) returns (r: Result<Applicant>)
      requires Valid()
      modifies applicants
      ensures Valid()
      ensures r.Err? ==> unchanged(applicants)
      ensures id == [] ==> r == Err("ID é obrigatório")
      ensures id != [] && (score < 0 || score > 1000) ==> r == Err("Score deve estar entre 0 e 1000")
      ensures id != [] && 0 <= score <= 1000 && old(id !in applicants.records) ==> r == Err("Erro ao atualizar solicitante")
      ensures (id != [] && 0 <= score <= 1000 && old(id in applicants.records)) ==>
                r == Ok(old(applicants.records[id]).(score := score))
                && applicants.records == old(applicants.records)[id := r.value]
    {
      if id == [] {
        return Err("ID é obrigatório");
      }
      if score < 0 || score > 1000 {
        return Err("Score deve estar entre 0 e 1000");
      }
      r := applicants.UpdateScore(id, score);
    }
  }
}
