/** The postal address of `src/core/domain/entities/Address.ts`: the
    validating constructor of `AddressEntity`, the CEP test and the two
    display forms. */
module AddressEntity {
  import opened Wrappers
  import opened Text

  /** An address as stored. `service` names the postal lookup that supplied
      it; `createdAt` is a timestamp in milliseconds. */
  datatype Address = Address(
    id: string,
    cep: string,
    state: string,
    city: string,
    neighborhood: string,
    street: string,
    service: string,
    createdAt: int)

  /** `isValidCep`: exactly eight digits once non-digits are stripped. */
  predicate IsValidCep(cep: string) {
    |Digits(cep)| == 8
  }

  /** Punctuation never matters to the CEP test. */
  lemma IsValidCepIgnoresNonDigits(cep: string)
    ensures IsValidCep(cep) <==> IsValidCep(Digits(cep))
  {
    DigitsIdempotent(cep);
  }

  /** What `AddressEntity` accepts. */
  predicate Valid(a: Address) {
    a.id != [] && a.cep != [] && IsValidCep(a.cep) && |a.state| == 2
    && a.city != [] && a.neighborhood != [] && a.street != [] && a.service != []
  }

  /** `new AddressEntity(...)`: the checks in source order, each with its
      own message. */
  function NewAddress(a: Address): (r: Result<Address>)
    ensures r.Ok? <==> Valid(a)
    ensures r.Ok? ==> r.value == a
    ensures a.id == [] ==> r == Err("Address ID é obrigatório")
    ensures a.id != [] && (a.cep == [] || !IsValidCep(a.cep)) ==> r == Err("CEP deve ter 8 dígitos")
    ensures a.id != [] && a.cep != [] && IsValidCep(a.cep) && |a.state| != 2 ==>
              r == Err("Estado deve ter 2 caracteres (UF)")
    ensures a.id != [] && a.cep != [] && IsValidCep(a.cep) && |a.state| == 2 && a.city == [] ==>
              r == Err("Cidade é obrigatória")
    ensures a.id != [] && a.cep != [] && IsValidCep(a.cep) && |a.state| == 2 && a.city != [] && a.neighborhood == [] ==>
              r == Err("Bairro é obrigatório")
    ensures (a.id != [] && a.cep != [] && IsValidCep(a.cep) && |a.state| == 2 && a.city != [] && a.neighborhood != []
             && a.street == []) ==> r == Err("Rua é obrigatória")
    ensures (a.id != [] && a.cep != [] && IsValidCep(a.cep) && |a.state| == 2 && a.city != [] && a.neighborhood != []
             && a.street != [] && a.service == []) ==> r == Err("Serviço de origem é obrigatório")
  {
    if a.id == [] then Err("Address ID é obrigatório")
    else if a.cep == [] || !IsValidCep(a.cep) then Err("CEP deve ter 8 dígitos")
    else if |a.state| != 2 then Err("Estado deve ter 2 caracteres (UF)")
    else if a.city == [] then Err("Cidade é obrigatória")
    else if a.neighborhood == [] then Err("Bairro é obrigatório")
    else if a.street == [] then Err("Rua é obrigatória")
    else if a.service == [] then Err("Serviço de origem é obrigatório")
    else Ok(a)
  }

  /** `${c.slice(0, 5)}-${c.slice(5)}`: a hyphen after the fifth character,
      shared by every CEP formatter of the system. */
  function HyphenateCep(c: string): (r: string)
    ensures |r| == |c| + 1
  {
    Slice(c, 0, 5) + "-" + SliceFrom(c, 5)
  }

  /** Taking the hyphen back out of a hyphenated digit string gives the
      digits, whatever their number. */
  lemma UnhyphenateCep(c: string)
    requires AllDigits(c)
    ensures Remove(HyphenateCep(c), '-') == c
  {
    var a, b := Slice(c, 0, 5), SliceFrom(c, 5);
    SliceThenRest(c, 0, 5);
    assert a + b == c;
    DigitsHaveNoHyphen(a, b);
    RemoveAroundHyphen(a, b);
  }

  /** Neither part of a digit string holds a hyphen. */
  lemma DigitsHaveNoHyphen(a: string, b: string)
    requires AllDigits(a + b)
    ensures '-' !in a && '-' !in b
  {
    assert forall i :: 0 <= i < |a| ==> (a + b)[i] == a[i];
    assert forall i :: 0 <= i < |b| ==> (a + b)[|a| + i] == b[i];
  }

  /** Removing the only hyphen from `a-b` gives `ab`. */
  lemma RemoveAroundHyphen(a: string, b: string)
    requires '-' !in a && '-' !in b
    ensures Remove(a + "-" + b, '-') == a + b
  {
    var x := a + "-";
    RemoveConcat(x, b, '-');
    RemoveHyphenAfter(a);
    RemoveAbsent(b, '-');
  }

  lemma RemoveHyphenAfter(a: string)
    requires '-' !in a
    ensures Remove(a + "-", '-') == a
  {
    RemoveConcat(a, "-", '-');
    RemoveAbsent(a, '-');
    assert Remove("-", '-') == [];
  }

  /** `getFormattedCep`: the CEP's digits with the hyphen after the fifth. */
  function GetFormattedCep(a: Address): string {
    HyphenateCep(Digits(a.cep))
  }

  /** A valid address formats its CEP as `ddddd-ddd`. */
  lemma FormattedCepShape(a: Address)
    requires NewAddress(a).Ok?
    ensures var f := GetFormattedCep(a);
            |f| == 9 && f[5] == '-' && AllDigits(f[..5]) && AllDigits(f[6..])
            && Remove(f, '-') == Digits(a.cep)
  {
    var c := Digits(a.cep);
    assert HyphenateCep(c) == c[..5] + "-" + c[5..];
    UnhyphenateCep(c);
  }

  /** `street, neighborhood, city - state`, the one-line address text. */
  function AddressLine(street: string, neighborhood: string, city: string, state: string): string {
    street + ", " + neighborhood + ", " + city + " - " + state
  }

  /** `getFullAddress`. */
  function GetFullAddress(a: Address): string {
    AddressLine(a.street, a.neighborhood, a.city, a.state)
  }

  /** The one-line text starts with the street and ends with the state. */
  lemma FullAddressEnds(a: Address)
    ensures var t := GetFullAddress(a);
            t[..|a.street|] == a.street && t[|t| - |a.state|..] == a.state
  {
  }
}
