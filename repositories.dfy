/** In-memory stand-ins for the four Prisma repositories the services use
    (the Prisma classes under `src/infra/repositories`, shaped by the port
    interfaces under `src/core/domain/ports`).
    Each table is a map from id to record. The database's unique indexes
    (the CPF of an applicant, the six fields of an address) are kept as a
    second map from key to id, and `Valid()` ties each index to its table.
    Fresh ids and timestamps, which the database mints, are parameters. */
module Repositories {
  import opened Wrappers
  import opened ProductEntity
  import opened AddressEntity
  import opened ApplicantEntity
  import opened ContractEntity

  /** `AddressLike`: the six fields a CEP lookup yields and an address is
      created from; they form the address table's unique key. */
  datatype AddressLike = AddressLike(
    cep: string,
    state: string,
    city: string,
    neighborhood: string,
    street: string,
    service: string)

  /** The unique key of a stored address. */
  function Fields(a: Address): AddressLike {
    AddressLike(a.cep, a.state, a.city, a.neighborhood, a.street, a.service)
  }

  class AddressRepository {
    var records: map<string, Address>
    var byFields: map<AddressLike, string>

    /** Every record is stored under its own id and indexed by its six
        fields, and the index names nothing else. */
    predicate Valid()
      reads this
    {
      (forall id :: id in records ==> records[id].id == id)
      && (forall id :: id in records ==> Fields(records[id]) in byFields && byFields[Fields(records[id])] == id)
      && (forall k :: k in byFields ==> byFields[k] in records && Fields(records[byFields[k]]) == k)
    }

    constructor ()
      ensures Valid() && records == map[] && byFields == map[]
    {
      records := map[];
      byFields := map[];
    }

    /** `findById`. */
    function FindById(id: string): (r: Option<Address>)
      reads this
      ensures r.Some? <==> id in records
      ensures r.Some? ==> r.value == records[id]
    {
      if id in records then Some(records[id]) else None
    }

    /** `findByUniqueFields`: the record whose six fields are `key`. */
    function FindByUniqueFields(key: AddressLike): (r: Option<Address>)
      reads this
      requires Valid()
      ensures r.Some? <==> exists id :: id in records && Fields(records[id]) == key
      ensures r.Some? ==> r.value in records.Values && Fields(r.value) == key
    {
      if key in byFields then Some(records[byFields[key]]) else None
    }

    /** `create`: a new record from the six fields, or the database's
        failure when the unique key is taken. */
    method Create(id: string, data: AddressLike, now: int) returns (r: Result<Address>)
      requires Valid() && id !in records
      modifies this
      ensures Valid()
      ensures old(data in byFields) ==> r == Err("Erro ao criar endereço") && unchanged(this)
      ensures old(data !in byFields) ==>
                r == Ok(Address(id, data.cep, data.state, data.city, data.neighborhood, data.street, data.service, now))
                && records == old(records)[id := r.value] && byFields == old(byFields)[data := id]
    {
      if data in byFields {
        return Err("Erro ao criar endereço");
      }
      var a := Address(id, data.cep, data.state, data.city, data.neighborhood, data.street, data.service, now);
      records := records[id := a];
      byFields := byFields[data := id];
      r := Ok(a);
    }
  }

  class ApplicantRepository {
    var records: map<string, Applicant>
    var byCpf: map<string, string>

    /** Every record is stored under its own id and indexed by its CPF; the
        index names nothing else, so no two records share a CPF. */
    predicate Valid()
      reads this
    {
      (forall id :: id in records ==> records[id].id == id)
      && (forall id :: id in records ==> records[id].cpf in byCpf && byCpf[records[id].cpf] == id)
      && (forall c :: c in byCpf ==> byCpf[c] in records && records[byCpf[c]].cpf == c)
    }

    constructor ()
      ensures Valid() && records == map[] && byCpf == map[]
    {
      records := map[];
      byCpf := map[];
    }

    /** `findById`. */
    function FindById(id: string): (r: Option<Applicant>)
      reads this
      ensures r.Some? <==> id in records
      ensures r.Some? ==> r.value == records[id]
    {
      if id in records then Some(records[id]) else None
    }

    /** `findByCpf`: the record whose stored CPF is exactly `cpf`. */
    function FindByCpf(cpf: string): (r: Option<Applicant>)
      reads this
      requires Valid()
      ensures r.Some? <==> exists id :: id in records && records[id].cpf == cpf
      ensures r.Some? ==> r.value in records.Values && r.value.cpf == cpf
    {
      if cpf in byCpf then Some(records[byCpf[cpf]]) else None
    }

    /** `create`: `data` with a fresh id and timestamp, or the database's
        failure when the CPF is taken. */
    method Create(id: string, data: Applicant, now: int) returns (r: Result<Applicant>)
      requires Valid() && id !in records
      modifies this
      ensures Valid()
      ensures old(data.cpf in byCpf) ==> r == Err("Erro ao criar solicitante") && unchanged(this)
      ensures old(data.cpf !in byCpf) ==>
                r == Ok(data.(id := id, createdAt := now))
                && records == old(records)[id := r.value] && byCpf == old(byCpf)[data.cpf := id]
    {
      if data.cpf in byCpf {
        return Err("Erro ao criar solicitante");
      }
      var a := data.(id := id, createdAt := now);
      records := records[id := a];
      byCpf := byCpf[data.cpf := id];
      r := Ok(a);
    }

    /** `update(id, { score })`: only the score changes; a missing id is
        the database's failure. */
    method UpdateScore(id: string, score: int) returns (r: Result<Applicant>)
      requires Valid()
      modifies this
      ensures Valid()
      ensures old(id !in records) ==> r == Err("Erro ao atualizar solicitante") && unchanged(this)
      ensures old(id in records) ==>
                r == Ok(old(records[id]).(score := score))
                && records == old(records)[id := r.value] && byCpf == old(byCpf)
    {
      if id !in records {
        return Err("Erro ao atualizar solicitante");
      }
      var a := records[id].(score := score);
      records := records[id := a];
      r := Ok(a);
    }
  }

  class ProductRepository {
    var records: map<string, Product>

    constructor ()
      ensures records == map[]
    {
      records := map[];
    }

    /** `findById`. */
    function FindById(id: string): (r: Option<Product>)
      reads this
      ensures r.Some? <==> id in records
      ensures r.Some? ==> r.value == records[id]
    {
      if id in records then Some(records[id]) else None
    }
  }

  /** No id occurs twice. */
  predicate Distinct(ids: seq<string>) {
    forall i, j :: 0 <= i < j < |ids| ==> ids[i] != ids[j]
  }

  /** Newest first: creation timestamps never increase along `cs`. */
  predicate Descending(cs: seq<Contract>) {
    forall i, j :: 0 <= i < j < |cs| ==> cs[i].createdAt >= cs[j].createdAt
  }

  /** No contract occurs twice. */
  predicate DistinctContracts(cs: seq<Contract>) {
    forall i, j :: 0 <= i < j < |cs| ==> cs[i].id != cs[j].id
  }

  /** A contract at least as new as every contract of a newest-first list
      may go in front of it. */
  lemma ConsDescending(c: Contract, cs: seq<Contract>)
    requires Descending(cs) && forall d :: d in cs ==> d.createdAt <= c.createdAt
    ensures Descending([c] + cs)
  {
    forall i, j | 0 <= i < j < |[c] + cs|
      ensures ([c] + cs)[i].createdAt >= ([c] + cs)[j].createdAt
    {
      assert ([c] + cs)[j] == cs[j - 1];
      if i > 0 {
        assert ([c] + cs)[i] == cs[i - 1];
      }
    }
  }

  /** A contract whose id no contract of a repetition-free list carries may
      go in front of it. */
  lemma ConsDistinct(c: Contract, cs: seq<Contract>)
    requires DistinctContracts(cs) && forall d :: d in cs ==> d.id != c.id
    ensures DistinctContracts([c] + cs)
  {
    forall i, j | 0 <= i < j < |[c] + cs|
      ensures ([c] + cs)[i].id != ([c] + cs)[j].id
    {
      assert ([c] + cs)[j] == cs[j - 1];
      if i > 0 {
        assert ([c] + cs)[i] == cs[i - 1];
      }
    }
  }

  class ContractRepository {
    var records: map<string, Contract>
    /** Ids in creation order, oldest first. */
    var order: seq<string>

    /** Every record is stored under its own id and appears once in the
        creation order, and timestamps never decrease along that order. */
    predicate Valid()
      reads this
    {
      (forall id :: id in records ==> records[id].id == id)
      && (forall id :: id in records ==> id in order)
      && (forall i :: 0 <= i < |order| ==> order[i] in records)
      && Distinct(order)
      && Chronological(order)
    }

    /** The records of `ids` carry non-decreasing timestamps. */
    predicate Chronological(ids: seq<string>)
      reads this
    {
      forall i, j :: 0 <= i < j < |ids| && ids[i] in records && ids[j] in records ==>
        records[ids[i]].createdAt <= records[ids[j]].createdAt
    }

    /** The database clock has not gone back before `now`: no stored
        contract is newer. */
    predicate NotAfter(now: int)
      reads this
    {
      forall id :: id in records ==> records[id].createdAt <= now
    }

    constructor ()
      ensures Valid() && records == map[] && order == []
    {
      records := map[];
      order := [];
    }

    /** `findById`. */
    function FindById(id: string): (r: Option<Contract>)
      reads this
      ensures r.Some? <==> id in records
      ensures r.Some? ==> r.value == records[id]
    {
      if id in records then Some(records[id]) else None
    }

    /** The contracts of `applicantId` among `ids`, walked from the last
        id back to the first: with chronological ids that is newest first,
        and with distinct ids no contract comes twice. */
    function NewestFirst(ids: seq<string>, applicantId: string): (r: seq<Contract>)
      reads this
      requires forall id :: id in ids ==> id in records
      ensures forall c :: c in r <==> exists id :: id in ids && records[id] == c && c.applicantId == applicantId
      ensures |r| <= |ids|
      ensures Chronological(ids) ==> Descending(r)
      ensures Distinct(ids) && (forall id :: id in ids ==> records[id].id == id) ==> DistinctContracts(r)
    {
      if ids == [] then []
      else
        var init := ids[..|ids| - 1];
        var last := records[ids[|ids| - 1]];
        var rest := NewestFirst(init, applicantId);
        assert forall id :: id in ids <==> id in init || id == ids[|ids| - 1];
        if last.applicantId == applicantId then
          LastInFront(ids, rest);
          [last] + rest
        else
          assert Chronological(ids) ==> Chronological(init);
          assert Distinct(ids) ==> Distinct(init);
          rest
    }

    /** The last id's record may go in front of the walk over the ids
        before it. */
    lemma LastInFront(ids: seq<string>, rest: seq<Contract>)
      requires ids != [] && forall id :: id in ids ==> id in records
      requires forall c :: c in rest ==> exists id :: id in ids[..|ids| - 1] && records[id] == c
      requires Chronological(ids[..|ids| - 1]) ==> Descending(rest)
      requires Distinct(ids[..|ids| - 1]) && (forall id :: id in ids[..|ids| - 1] ==> records[id].id == id) ==>
                 DistinctContracts(rest)
      ensures Chronological(ids) ==> Descending([records[ids[|ids| - 1]]] + rest)
      ensures Distinct(ids) && (forall id :: id in ids ==> records[id].id == id) ==>
                DistinctContracts([records[ids[|ids| - 1]]] + rest)
    {
      var init, last := ids[..|ids| - 1], records[ids[|ids| - 1]];
      if Chronological(ids) {
        LastIsNewest(ids);
        ConsDescending(last, rest);
      }
      if Distinct(ids) && (forall id :: id in ids ==> records[id].id == id) {
        forall id | id in init
          ensures id != ids[|ids| - 1] && id in ids
        {
          var k :| 0 <= k < |init| && init[k] == id;
          assert ids[k] == id;
        }
        ConsDistinct(last, rest);
      }
    }

    /** In chronological ids the last id's record is at least as new as
        those of all the ids before it, and the ids before it are
        chronological too. */
    lemma LastIsNewest(ids: seq<string>)
      requires ids != [] && forall id :: id in ids ==> id in records
      requires Chronological(ids)
      ensures Chronological(ids[..|ids| - 1])
      ensures forall id :: id in ids[..|ids| - 1] ==> records[id].createdAt <= records[ids[|ids| - 1]].createdAt
    {
      var n := |ids|;
      forall id | id in ids[..n - 1]
        ensures records[id].createdAt <= records[ids[n - 1]].createdAt
      {
        var k :| 0 <= k < n - 1 && ids[..n - 1][k] == id;
        assert ids[k] == id;
      }
    }

    /** `findByApplicantId`: exactly that applicant's contracts, each once,
        newest first. */
    function FindByApplicantId(applicantId: string): (r: seq<Contract>)
      reads this
      requires Valid()
      ensures forall c :: c in r <==> c in records.Values && c.applicantId == applicantId
      ensures Descending(r) && DistinctContracts(r)
    {
      NewestFirst(order, applicantId)
    }

    /** `create`: `data` with a fresh id and timestamp, appended to the
        creation order. */
    method Create(id: string, data: Contract, now: int) returns (c: Contract)
      requires Valid() && id !in records && NotAfter(now)
      modifies this
      ensures Valid()
      ensures c == data.(id := id, createdAt := now)
      ensures records == old(records)[id := c] && order == old(order) + [id]
    {
      c := data.(id := id, createdAt := now);
      records := records[id := c];
      order := order + [id];
    }
  }
}
