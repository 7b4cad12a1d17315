/** `src/interface/mappers/product.mapper.ts`: the product response shape,
    its array form, the installment-range text and the one-line product
    description. The rate text (`formatTaxa`, which goes through floating
    point `toFixed`) is a parameter. */
module ProductMapper {
  import opened Text
  import opened ProductEntity
  import opened Seqs

  /** `ProductResponseDto`: the seven product fields. */
  datatype ProductResponseDto = ProductResponseDto(
    id: string,
    nome: string,
    taxaMesBase: real,
    minParcelas: int,
    maxParcelas: int,
    cetInfo: string,
    createdAt: int)

  /** `toResponseDto`. */
  function ToResponseDto(p: Product): ProductResponseDto {
    ProductResponseDto(p.id, p.nome, p.taxaMesBase, p.minParcelas, p.maxParcelas, p.cetInfo, p.createdAt)
  }

  /** The product a response describes, field by field. */
  function FromResponseDto(d: ProductResponseDto): Product {
    Product(d.id, d.nome, d.taxaMesBase, d.minParcelas, d.maxParcelas, d.cetInfo, d.createdAt)
  }

  /** The response loses nothing: reading the product back gives the
      original, and every response is the response of its product. */
  lemma ResponseRoundTrip(p: Product, d: ProductResponseDto)
    ensures FromResponseDto(ToResponseDto(p)) == p
    ensures ToResponseDto(FromResponseDto(d)) == d
  {
  }

  /** `toResponseDtoArray`: one response per product, in the same order. */
  function ToResponseDtoArray(ps: seq<Product>): (r: seq<ProductResponseDto>)
    ensures |r| == |ps|
    ensures forall i :: 0 <= i < |ps| ==> r[i] == ToResponseDto(ps[i])
  {
    MapSeq(ToResponseDto, ps)
  }

  /** The array form loses nothing either. */
  lemma ResponseArrayRoundTrip(ps: seq<Product>)
    ensures MapSeq(FromResponseDto, ToResponseDtoArray(ps)) == ps
  {
    MapInverse(ToResponseDto, FromResponseDto, ps);
  }

  /** `formatParcelas`: one count, or the range `min a max`. */
  function FormatParcelas(min: int, max: int): string {
    if min == max then IntToString(min) + " parcelas"
    else IntToString(min) + " a " + IntToString(max) + " parcelas"
  }

  /** The number of spaces in `s`. */
  function Spaces(s: string): nat {
    if s == [] then 0 else (if s[0] == ' ' then 1 else 0) + Spaces(s[1..])
  }

  lemma {:induction false} SpacesConcat(a: string, b: string)
    ensures Spaces(a + b) == Spaces(a) + Spaces(b)
  {
    if a != [] {
      assert (a + b)[0] == a[0] && (a + b)[1..] == a[1..] + b;
      SpacesConcat(a[1..], b);
    } else {
      assert a + b == b;
    }
  }

  lemma {:induction false} SpacesOfNoSpace(s: string)
    requires forall i :: 0 <= i < |s| ==> s[i] != ' '
    ensures Spaces(s) == 0
  {
    if s != [] {
      SpacesOfNoSpace(s[1..]);
    }
  }

  /** A rendered integer holds no space. */
  lemma IntTextHasNoSpace(n: int)
    ensures Spaces(IntToString(n)) == 0
  {
    var s := IntToString(n);
    if n >= 0 {
      assert AllDigits(s);
    } else {
      assert s == "-" + NatToString(-n);
      assert AllDigits(NatToString(-n));
      assert forall i :: 1 <= i < |s| ==> s[i] == NatToString(-n)[i - 1];
    }
    SpacesOfNoSpace(s);
  }

  /** The range text names a single count exactly when the bounds agree:
      the single form has one space, the range form three, whatever the
      bounds. */
  lemma FormatParcelasForm(min: int, max: int)
    ensures Spaces(FormatParcelas(min, max)) == (if min == max then 1 else 3)
    ensures Spaces(FormatParcelas(min, max)) == 1 <==> min == max
  {
    IntTextHasNoSpace(min);
    IntTextHasNoSpace(max);
    SpacesOfForms(IntToString(min), IntToString(max));
  }

  /** Around texts without spaces, the single form has one space and the
      range form three. */
  lemma SpacesOfForms(lo: string, hi: string)
    requires Spaces(lo) == 0 && Spaces(hi) == 0
    ensures Spaces(lo + " parcelas") == 1
    ensures Spaces(lo + " a " + hi + " parcelas") == 3
  {
    SpacesOfSuffix();
    SpacesOfSeparator();
    SpacesConcat(lo, " parcelas");
    SpacesConcat(lo, " a ");
    SpacesConcat(lo + " a ", hi);
    SpacesConcat(lo + " a " + hi, " parcelas");
  }

  lemma SpacesOfSuffix()
    ensures Spaces(" parcelas") == 1
  {
    SpacesOfNoSpace("parcelas");
    assert " parcelas"[1..] == "parcelas";
  }

  lemma SpacesOfSeparator()
    ensures Spaces(" a ") == 2
  {
    assert " a "[1..] == "a " && "a "[1..] == " ";
    assert Spaces(" ") == 1 by { assert " "[1..] == []; }
  }

  /** `getProductDescription`: name, rate text and range text joined by
      `" - "`; `formatTaxa` renders the monthly rate. */
  function GetProductDescription(p: Product, formatTaxa: real -> string): (r: string)
    ensures OccursAt(r, p.nome + " - ", 0)
    ensures var tail := " - " + FormatParcelas(p.minParcelas, p.maxParcelas);
            |tail| <= |r| && OccursAt(r, tail, |r| - |tail|)
  {
    var head, rate, tail := p.nome + " - ", formatTaxa(p.taxaMesBase), " - " + FormatParcelas(p.minParcelas, p.maxParcelas);
    HeadAndTail(head, rate, tail);
    head + rate + tail
  }

  /** The first and last of three pieces occur at the two ends of their
      concatenation. */
  lemma HeadAndTail(head: string, mid: string, tail: string)
    ensures OccursAt(head + mid + tail, head, 0)
    ensures OccursAt(head + mid + tail, tail, |head + mid + tail| - |tail|)
  {
    var s := head + mid + tail;
    assert s[..|head|] == head;
    assert s[|head| + |mid|..] == tail;
  }

  /** The description reads only the name, the rate and the term range:
      products that agree on those have the same description. */
  lemma DescriptionReadsNameRateAndRange(p: Product, q: Product, formatTaxa: real -> string)
    requires p.nome == q.nome && p.taxaMesBase == q.taxaMesBase
    requires p.minParcelas == q.minParcelas && p.maxParcelas == q.maxParcelas
    ensures GetProductDescription(p, formatTaxa) == GetProductDescription(q, formatTaxa)
  {
  }
}
