/** `src/core/application/services/AddressService.ts`: find-or-create of an
    address from a CEP through the external CEP lookup, and lookup by id.
    The lookup is a parameter: a function from the digit-only CEP to either
    a failure (timeout, HTTP error) or an optional answer. */
module AddressService {
  import opened Wrappers
  import opened Text
  import opened AddressEntity
  import opened Repositories

  /** What the lookup step of `resolveOrCreateByZip` yields before the
      store is consulted: the two CEP checks, then the gateway's answer for
      the cleaned CEP, with a missing answer turned into an error. */
  function LookupZip(cep: string, getAddressByZip: string -> Result<Option<AddressLike>>): (r: Result<AddressLike>)
    ensures cep == [] ==> r == Err("CEP é obrigatório")
    ensures cep != [] && |Digits(cep)| != 8 ==> r == Err("CEP deve ter 8 dígitos")
    ensures (cep != [] && |Digits(cep)| == 8) ==>
              (getAddressByZip(Digits(cep)).Err? ==> r == Err(getAddressByZip(Digits(cep)).message)) &&
              (getAddressByZip(Digits(cep)) == Ok(None) ==> r == Err("CEP não encontrado"))
    ensures r.Ok? <==> cep != [] && |Digits(cep)| == 8 && getAddressByZip(Digits(cep)).Ok? && getAddressByZip(Digits(cep)).value.Some?
    ensures r.Ok? ==> getAddressByZip(Digits(cep)) == Ok(Some(r.value))
  {
    if cep == [] then Err("CEP é obrigatório")
    else
      var cleanCep := Digits(cep);
      if |cleanCep| != 8 then Err("CEP deve ter 8 dígitos")
      else
        var addressData :- getAddressByZip(cleanCep);
        if addressData.None? then Err("CEP não encontrado") else Ok(addressData.value)
  }

  /** The gateway is only ever asked about the cleaned CEP: two gateways
      that agree there give the same outcome. */
  lemma LookupAsksCleanCep(cep: string, g1: string -> Result<Option<AddressLike>>, g2: string -> Result<Option<AddressLike>>)
    requires g1(Digits(cep)) == g2(Digits(cep))
    ensures LookupZip(cep, g1) == LookupZip(cep, g2)
  {
  }

  /** Punctuation in the CEP never changes the outcome, as long as some
      digit is left. */
  lemma LookupIgnoresPunctuation(cep: string, g: string -> Result<Option<AddressLike>>)
    requires Digits(cep) != []
    ensures LookupZip(cep, g) == LookupZip(Digits(cep), g)
  {
    DigitsIdempotent(cep);
  }

  /** The one case where punctuation matters: a CEP of punctuation only is
      rejected for its length, while its empty digit string is rejected as
      missing. */
  lemma LookupPunctuationOnly(cep: string, g: string -> Result<Option<AddressLike>>)
    requires cep != [] && Digits(cep) == []
    ensures LookupZip(cep, g) == Err("CEP deve ter 8 dígitos")
    ensures LookupZip(Digits(cep), g) == Err("CEP é obrigatório")
  {
  }

  class AddressService {
    const addresses: AddressRepository

    constructor (addresses: AddressRepository)
      ensures this.addresses == addresses
    {
      this.addresses := addresses;
    }

    /** `resolveOrCreateByZip`. A failed lookup changes nothing; an answer
        whose six fields are already stored yields that record and changes
        nothing; otherwise exactly one record carrying the answer's fields
        is created under the fresh id. Afterwards the answer's fields find
        the returned record, so a second call with the same answer takes
        the second path. */
    method ResolveOrCreateByZip(cep: string, getAddressByZip: string -> Result<Option<AddressLike>>, freshId: string, now: int)
      returns (r: Result<Address>)
      requires addresses.Valid() && freshId !in addresses.records
      modifies addresses
      ensures addresses.Valid()
      ensures LookupZip(cep, getAddressByZip).Err? ==>
                r == Err(LookupZip(cep, getAddressByZip).message) && unchanged(addresses)
      ensures (LookupZip(cep, getAddressByZip).Ok?
               && old(addresses.FindByUniqueFields(LookupZip(cep, getAddressByZip).value)).Some?) ==>
                r == Ok(old(addresses.FindByUniqueFields(LookupZip(cep, getAddressByZip).value)).value)
                && unchanged(addresses)
      ensures (LookupZip(cep, getAddressByZip).Ok?
               && old(addresses.FindByUniqueFields(LookupZip(cep, getAddressByZip).value)).None?) ==>
                var d := LookupZip(cep, getAddressByZip).value;
                r == Ok(Address(freshId, d.cep, d.state, d.city, d.neighborhood, d.street, d.service, now))
                && addresses.records == old(addresses.records)[freshId := r.value]
                && addresses.byFields == old(addresses.byFields)[d := freshId]
      ensures r.Ok? ==> Fields(r.value) == LookupZip(cep, getAddressByZip).value
                        && addresses.FindByUniqueFields(Fields(r.value)) == Some(r.value)
    {
      var addressData :- LookupZip(cep, getAddressByZip);
      var existingAddress := addresses.FindByUniqueFields(addressData);
      if existingAddress.Some? {
        return Ok(existingAddress.value);
      }
      r := addresses.Create(freshId, addressData, now);
    }

    /** `findById`. */
    function FindById(id: string): (r: Result<Address>)
      reads addresses
      requires addresses.Valid()
      ensures id == [] ==> r == Err("ID é obrigatório")
      ensures id != [] && id !in addresses.records ==> r == Err("Endereço não encontrado")
      ensures r.Ok? <==> id != [] && id in addresses.records
      ensures r.Ok? ==> r.value == addresses.records[id] && r.value.id == id
    {
      if id == [] then Err("ID é obrigatório")
      else
        match addresses.FindById(id)
        case None => Err("Endereço não encontrado")
        case Some(address) => Ok(address)
    }
  }
}
