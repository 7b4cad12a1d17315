/** The loan product of `src/core/domain/entities/Product.ts`: the record the
    repository hands out, the validating constructor of `ProductEntity` and
    the term-range test. */
module ProductEntity {
  import opened Wrappers

  /** A product as stored: monthly base rate and the allowed range of
      installment counts. `createdAt` is a timestamp in milliseconds. */
  datatype Product = Product(
    id: string,
    nome: string,
    taxaMesBase: real,
    minParcelas: int,
    maxParcelas: int,
    cetInfo: string,
    createdAt: int)

  /** What `ProductEntity` accepts: both names present, a non-negative rate
      and a non-empty range of terms starting at one or more. */
  predicate Valid(p: Product) {
    p.id != [] && p.nome != [] && p.taxaMesBase >= 0.0 && 1 <= p.minParcelas <= p.maxParcelas
  }

  /** `new ProductEntity(...)`: the first failing check, in source order,
      decides the message; a product that passes is kept as it is. */
  function NewProductEntity(p: Product): (r: Result<Product>)
    ensures r.Ok? <==> Valid(p)
    ensures r.Ok? ==> r.value == p
    ensures p.id == [] ==> r == Err("Product ID é obrigatório")
    ensures p.id != [] && p.nome == [] ==> r == Err("Nome do produto é obrigatório")
    ensures p.id != [] && p.nome != [] && p.taxaMesBase < 0.0 ==> r == Err("Taxa mensal base deve ser positiva")
    ensures p.id != [] && p.nome != [] && p.taxaMesBase >= 0.0 && p.minParcelas < 1 ==>
              r == Err("Mínimo de parcelas deve ser maior que 0")
    ensures p.id != [] && p.nome != [] && p.taxaMesBase >= 0.0 && p.minParcelas >= 1 && p.maxParcelas < p.minParcelas ==>
              r == Err("Máximo de parcelas deve ser maior ou igual ao mínimo")
  {
    if p.id == [] then Err("Product ID é obrigatório")
    else if p.nome == [] then Err("Nome do produto é obrigatório")
    else if p.taxaMesBase < 0.0 then Err("Taxa mensal base deve ser positiva")
    else if p.minParcelas < 1 then Err("Mínimo de parcelas deve ser maior que 0")
    else if p.maxParcelas < p.minParcelas then Err("Máximo de parcelas deve ser maior ou igual ao mínimo")
    else Ok(p)
  }

  /** `isValidParcelas`: the count lies in the product's closed range. */
  predicate IsValidParcelas(p: Product, parcelas: int) {
    p.minParcelas <= parcelas <= p.maxParcelas
  }

  /** Both ends of a valid product's range are accepted, and so is every
      count between them; nothing outside is. */
  lemma ValidRangeAccepted(p: Product, parcelas: int)
    requires NewProductEntity(p).Ok?
    ensures IsValidParcelas(p, p.minParcelas) && IsValidParcelas(p, p.maxParcelas)
    ensures IsValidParcelas(p, parcelas) ==> 1 <= parcelas
  {
  }
}
