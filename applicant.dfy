/** The loan applicant of `src/core/domain/entities/Applicant.ts`: the
    validating constructor of `ApplicantEntity`, its private CPF check and
    the two accessors. */
module ApplicantEntity {
  import opened Wrappers
  import opened Text
  import Cpf
  import opened AddressEntity

  /** An applicant as stored; `address` is present when the record was read
      together with its address. */
  datatype Applicant = Applicant(
    id: string,
    nome: string,
    cpf: string,
    renda: real,
    score: int,
    addressId: string,
    createdAt: int,
    address: Option<Address>)

  /** What the private `isValidCpf` decides: the digits pass the CPF rules
      (an empty string has no digits and fails). */
  predicate CpfOk(cpf: string) {
    Cpf.ValidDigits(Digits(cpf))
  }

  /** The private `isValidCpf`: its own copy of the two check-digit loops. */
  method IsValidCpf(cpf: string) returns (valid: bool)
    ensures valid == CpfOk(cpf)
  {
    var cleanCpf := Digits(cpf);
    if |cleanCpf| != 11 {
      return false;
    }
    if Cpf.AllSame(cleanCpf) {
      return false;
    }
    var sum := 0;
    var i := 0;
    while i < 9
      invariant 0 <= i <= 9
      invariant sum == Cpf.WeightedSum(cleanCpf, i, 10)
    {
      sum := sum + DigitValue(cleanCpf[i]) * (10 - i);
      i := i + 1;
    }
    var remainder := (sum * 10) % 11;
    if remainder == 10 || remainder == 11 {
      remainder := 0;
    }
    if remainder != DigitValue(cleanCpf[9]) {
      return false;
    }
    sum := 0;
    i := 0;
    while i < 10
      invariant 0 <= i <= 10
      invariant sum == Cpf.WeightedSum(cleanCpf, i, 11)
    {
      sum := sum + DigitValue(cleanCpf[i]) * (11 - i);
      i := i + 1;
    }
    remainder := (sum * 10) % 11;
    if remainder == 10 || remainder == 11 {
      remainder := 0;
    }
    if remainder != DigitValue(cleanCpf[10]) {
      return false;
    }
    return true;
  }

  /** The entity's own check agrees with `isValidCPF` of the CPF rules on
      every string; together with the constructor's emptiness test it is
      exactly that function. */
  lemma CpfOkAgreesWithRules(cpf: string)
    ensures cpf != [] ==> (CpfOk(cpf) <==> Cpf.ValidCpf(cpf))
    ensures (cpf != [] && CpfOk(cpf)) <==> Cpf.ValidCpf(cpf)
  {
  }

  /** What `ApplicantEntity` accepts. */
  predicate Valid(a: Applicant) {
    a.id != [] && a.nome != [] && a.cpf != [] && CpfOk(a.cpf) && a.renda > 0.0
    && 0 <= a.score <= 1000 && a.addressId != []
  }

  /** `new ApplicantEntity(...)`: the checks in source order, each with its
      own message. */
  function NewApplicant(a: Applicant): (r: Result<Applicant>)
    ensures r.Ok? <==> Valid(a)
    ensures r.Ok? ==> r.value == a
    ensures a.id == [] ==> r == Err("Applicant ID é obrigatório")
    ensures a.id != [] && a.nome == [] ==> r == Err("Nome é obrigatório")
    ensures a.id != [] && a.nome != [] && !Cpf.ValidCpf(a.cpf) ==> r == Err("CPF inválido")
    ensures a.id != [] && a.nome != [] && Cpf.ValidCpf(a.cpf) && a.renda <= 0.0 ==> r == Err("Renda deve ser positiva")
    ensures (a.id != [] && a.nome != [] && Cpf.ValidCpf(a.cpf) && a.renda > 0.0 && (a.score < 0 || a.score > 1000)) ==>
              r == Err("Score deve estar entre 0 e 1000")
    ensures (a.id != [] && a.nome != [] && Cpf.ValidCpf(a.cpf) && a.renda > 0.0 && 0 <= a.score <= 1000 && a.addressId == []) ==>
              r == Err("Address ID é obrigatório")
  {
    if a.id == [] then Err("Applicant ID é obrigatório")
    else if a.nome == [] then Err("Nome é obrigatório")
    else if a.cpf == [] || !CpfOk(a.cpf) then Err("CPF inválido")
    else if a.renda <= 0.0 then Err("Renda deve ser positiva")
    else if a.score < 0 || a.score > 1000 then Err("Score deve estar entre 0 e 1000")
    else if a.addressId == [] then Err("Address ID é obrigatório")
    else Ok(a)
  }

  /** `getFormattedCpf`: the stored CPF's digits sliced as `ddd.ddd.ddd-rest`,
      whatever their number. */
  function GetFormattedCpf(a: Applicant): string {
    Cpf.DotDash(Digits(a.cpf))
  }

  /** Removing the dots and the hyphen from the display form gives back the
      digits, whatever their number; for eleven digits the display form is
      the one `formatCPF` produces. */
  lemma FormattedCpfRoundTrip(a: Applicant)
    ensures Remove(Remove(GetFormattedCpf(a), '.'), '-') == Digits(a.cpf)
    ensures |Digits(a.cpf)| == 11 ==> GetFormattedCpf(a) == Cpf.FormatCPF(a.cpf)
  {
    StripDotDash(Digits(a.cpf));
  }

  /** `Remove` of both separators undoes `DotDash` on a string of digits. */
  lemma StripDotDash(c: string)
    requires AllDigits(c)
    ensures Remove(Remove(Cpf.DotDash(c), '.'), '-') == c
  {
    var a, b, d, e := Slice(c, 0, 3), Slice(c, 3, 6), Slice(c, 6, 9), SliceFrom(c, 9);
    assert forall ch :: ch in a || ch in b || ch in d || ch in e ==> ch in c;
    assert forall ch :: ch in Cpf.DotDash(c) ==> IsDigit(ch) || ch == '.' || ch == '-';
    StripIsDigits(Cpf.DotDash(c));
    Cpf.DigitsOfDotDash(c);
  }

  /** On a string of digits and separators, removing both separators is the
      digit filter. */
  lemma {:induction false} StripIsDigits(s: string)
    requires forall ch :: ch in s ==> IsDigit(ch) || ch == '.' || ch == '-'
    ensures Remove(Remove(s, '.'), '-') == Digits(s)
  {
    if s != [] {
      StripIsDigits(s[1..]);
      var head := if s[0] == '.' then [] else [s[0]];
      RemoveConcat(head, Remove(s[1..], '.'), '-');
    }
  }

  /** `getMaxMonthlyPayment`: 30% of the income. */
  function GetMaxMonthlyPayment(a: Applicant): (m: real)
    ensures a.renda > 0.0 ==> 0.0 < m < a.renda
  {
    a.renda * 0.3
  }
}
