/** Price-table (French amortization) arithmetic of `src/core/domain/rules/price.ts`,
    over exact reals instead of IEEE doubles. */
module Price {
  import opened Wrappers

  /** `Math.pow(base, n)` for a whole exponent. */
  function Pow(base: real, n: nat): (r: real)
    ensures base >= 1.0 ==> r >= 1.0
    ensures base > 1.0 && n > 0 ==> r > 1.0
  {
    if n == 0 then 1.0
    else
      var p := Pow(base, n - 1);
      assert base >= 1.0 ==> base * p >= p;
      base * p
  }

  /** The amount is a whole number of cents. */
  predicate WholeCents(x: real) {
    (x * 100.0).Floor as real == x * 100.0
  }

  /** `Math.round(x * 100) / 100`. JavaScript's `Math.round(y)` is
      `floor(y + 0.5)` for every `y`, so halves of a cent round upwards. */
  function Round2(x: real): (r: real)
    ensures x - 0.005 < r <= x + 0.005
    ensures WholeCents(r)
  {
    var k := (x * 100.0 + 0.5).Floor;
    assert (k as real * 100.0 / 100.0).Floor == k;
    k as real / 100.0
  }

  /** The rate has at most four decimal places. */
  predicate WholeTenThousandths(x: real) {
    (x * 10000.0).Floor as real == x * 10000.0
  }

  /** `Math.round(x * 10000) / 10000`: four decimal places. */
  function Round4(x: real): (r: real)
    ensures x - 0.00005 < r <= x + 0.00005
    ensures x >= 0.0 ==> r >= 0.0
    ensures WholeTenThousandths(r)
  {
    var k := (x * 10000.0 + 0.5).Floor;
    assert (k as real * 10000.0 / 10000.0).Floor == k;
    k as real / 10000.0
  }

  /** A rate already at four decimal places is left alone by rounding, so
      rounding to four places is idempotent. */
  lemma Round4OfWholeTenThousandths(x: real)
    requires WholeTenThousandths(x)
    ensures Round4(x) == x
  {
    var k := (x * 10000.0).Floor;
    assert (x * 10000.0 + 0.5).Floor == k;
  }

  lemma Round4Idempotent(x: real)
    ensures Round4(Round4(x)) == Round4(x)
  {
    Round4OfWholeTenThousandths(Round4(x));
  }

  /** An amount already in whole cents is left alone by rounding. */
  lemma Round2OfWholeCents(x: real)
    requires WholeCents(x)
    ensures Round2(x) == x
  {
    var k := (x * 100.0).Floor;
    assert (x * 100.0 + 0.5).Floor == k;
  }

  /** Rounding to cents is idempotent. */
  lemma Round2Idempotent(x: real)
    ensures Round2(Round2(x)) == Round2(x)
  {
    Round2OfWholeCents(Round2(x));
  }

  /** Rounding to cents preserves order. */
  lemma Round2Monotone(x: real, y: real)
    requires x <= y
    ensures Round2(x) <= Round2(y)
  {
    assert (x * 100.0 + 0.5).Floor <= (y * 100.0 + 0.5).Floor;
  }

  /** The unrounded Price-table installment `PV * i * (1+i)^n / ((1+i)^n - 1)`. */
  function Annuity(valor: real, i: real, n: nat): real
    requires i > 0.0 && n > 0
  {
    AnnuityOf(valor, i, Pow(1.0 + i, n))
  }

  /** `PV * i * f / (f - 1)` for a growth factor `f = (1+i)^n`. */
  function AnnuityOf(valor: real, i: real, f: real): real
    requires f != 1.0
  {
    valor * (i * f) / (f - 1.0)
  }

  /** `calcParcela(valor, taxaMes, n)`: the guards in source order, the exact
      split when the rate is zero, the rounded annuity otherwise. */
  function CalcParcela(valor: real, taxaMes: real, n: int): (r: Result<real>)
    ensures r.Err? <==> valor <= 0.0 || taxaMes < 0.0 || n <= 0
    ensures valor <= 0.0 ==> r == Err("Valor deve ser positivo")
    ensures valor > 0.0 && taxaMes < 0.0 ==> r == Err("Taxa mensal deve ser positiva")
    ensures valor > 0.0 && taxaMes >= 0.0 && n <= 0 ==> r == Err("Número de parcelas deve ser positivo")
    ensures r.Ok? && taxaMes == 0.0 ==> r.value * (n as real) == valor
    ensures r.Ok? && taxaMes > 0.0 ==>
              WholeCents(r.value) && Annuity(valor, taxaMes, n) - 0.005 < r.value <= Annuity(valor, taxaMes, n) + 0.005
  {
    if valor <= 0.0 then Err("Valor deve ser positivo")
    else if taxaMes < 0.0 then Err("Taxa mensal deve ser positiva")
    else if n <= 0 then Err("Número de parcelas deve ser positivo")
    else if taxaMes == 0.0 then Ok(valor / n as real)
    else Ok(Round2(Annuity(valor, taxaMes, n)))
  }

  /** `calcTotal(parcela, n)`: the installment times the count, to the cent. */
  function CalcTotal(parcela: real, n: int): (r: Result<real>)
    ensures r.Err? <==> parcela <= 0.0 || n <= 0
    ensures parcela <= 0.0 ==> r == Err("Parcela deve ser positiva")
    ensures parcela > 0.0 && n <= 0 ==> r == Err("Número de parcelas deve ser positivo")
    ensures r.Ok? ==> WholeCents(r.value) && parcela * n as real - 0.005 < r.value <= parcela * n as real + 0.005
  {
    if parcela <= 0.0 then Err("Parcela deve ser positiva")
    else if n <= 0 then Err("Número de parcelas deve ser positivo")
    else Ok(Round2(parcela * n as real))
  }

  /** `calcJuros(valorPrincipal, valorTotal)`: total minus principal, to the
      cent; a total below the principal gives negative interest. */
  function CalcJuros(valorPrincipal: real, valorTotal: real): (r: Result<real>)
    ensures r.Err? <==> valorPrincipal <= 0.0 || valorTotal <= 0.0
    ensures valorPrincipal <= 0.0 ==> r == Err("Valor principal deve ser positivo")
    ensures valorPrincipal > 0.0 && valorTotal <= 0.0 ==> r == Err("Valor total deve ser positivo")
    ensures r.Ok? ==> WholeCents(r.value) &&
                      valorTotal - valorPrincipal - 0.005 < r.value <= valorTotal - valorPrincipal + 0.005
  {
    if valorPrincipal <= 0.0 then Err("Valor principal deve ser positivo")
    else if valorTotal <= 0.0 then Err("Valor total deve ser positivo")
    else Ok(Round2(valorTotal - valorPrincipal))
  }

  /** `calcularCET(principal, n, parcela)`: the percentage by which the sum of
      the installments exceeds the principal, to two decimal places. */
  function CalcularCET(principal: real, n: int, parcela: real): (r: Result<real>)
    ensures r.Err? <==> principal <= 0.0 || n <= 0 || parcela <= 0.0
    ensures principal <= 0.0 ==> r == Err("Principal deve ser positivo")
    ensures principal > 0.0 && n <= 0 ==> r == Err("Número de parcelas deve ser positivo")
    ensures principal > 0.0 && n > 0 && parcela <= 0.0 ==> r == Err("Parcela deve ser positiva")
    ensures r.Ok? ==>
              var cet := (parcela * n as real - principal) / principal * 100.0;
              WholeCents(r.value) && cet - 0.005 < r.value <= cet + 0.005
  {
    if principal <= 0.0 then Err("Principal deve ser positivo")
    else if n <= 0 then Err("Número de parcelas deve ser positivo")
    else if parcela <= 0.0 then Err("Parcela deve ser positiva")
    else
      var total := parcela * n as real;
      var cet := ((total - principal) / principal) * 100.0;
      Ok(Round2(cet))
  }

  // ---------------------------------------------------------------------
  // The amortization schedule: what the installment is FOR.

  /** Balance still owed after `k` monthly payments of `pmt`, each month
      first accruing interest at rate `i` on the balance. */
  function Balance(valor: real, i: real, pmt: real, k: nat): real {
    if k == 0 then valor else Balance(valor, i, pmt, k - 1) * (1.0 + i) - pmt
  }

  /** Closed form of the schedule: `B(k)·i = PV·(1+i)^k·i − pmt·((1+i)^k − 1)`. */
  lemma {:induction false} BalanceClosedForm(valor: real, i: real, pmt: real, k: nat)
    ensures Balance(valor, i, pmt, k) * i == valor * Pow(1.0 + i, k) * i - pmt * (Pow(1.0 + i, k) - 1.0)
  {
    if k > 0 {
      BalanceClosedForm(valor, i, pmt, k - 1);
      BalanceStep(valor, i, pmt, k);
    }
  }

  /** The closed form carries over from `k - 1` payments to `k`. */
  lemma BalanceStep(valor: real, i: real, pmt: real, k: nat)
    requires k > 0
    requires Balance(valor, i, pmt, k - 1) * i == valor * Pow(1.0 + i, k - 1) * i - pmt * (Pow(1.0 + i, k - 1) - 1.0)
    ensures Balance(valor, i, pmt, k) * i == valor * Pow(1.0 + i, k) * i - pmt * (Pow(1.0 + i, k) - 1.0)
  {
    var b, p := Balance(valor, i, pmt, k - 1), Pow(1.0 + i, k - 1);
    assert Balance(valor, i, pmt, k) == b * (1.0 + i) - pmt;
    assert Pow(1.0 + i, k) == (1.0 + i) * p;
    ScheduleStep(b, i, pmt, valor, p);
  }

  /** One month of the closed form, as plain algebra. */
  lemma ScheduleStep(b: real, i: real, pmt: real, valor: real, p: real)
    requires b * i == valor * p * i - pmt * (p - 1.0)
    ensures (b * (1.0 + i) - pmt) * i == valor * ((1.0 + i) * p) * i - pmt * ((1.0 + i) * p - 1.0)
  {
  }

  /** The Price installment pays a loan off exactly: after `n` payments of
      the unrounded annuity nothing is owed. */
  lemma AnnuityAmortizes(valor: real, i: real, n: nat)
    requires i > 0.0 && n > 0
    ensures Balance(valor, i, Annuity(valor, i, n), n) == 0.0
  {
    var f := Pow(1.0 + i, n);
    var pmt := Annuity(valor, i, n);
    BalanceClosedForm(valor, i, pmt, n);
    assert pmt * (f - 1.0) == valor * i * f;
    assert Balance(valor, i, pmt, n) * i == 0.0;
  }

  /** Without interest, `n` equal payments of `valor / n` pay the loan off. */
  lemma {:induction false} ZeroRateSchedule(valor: real, pmt: real, k: nat)
    ensures Balance(valor, 0.0, pmt, k) == valor - k as real * pmt
  {
    if k > 0 {
      ZeroRateSchedule(valor, pmt, k - 1);
    }
  }

  /** The zero-rate installment `calcParcela(valor, 0, n)` amortizes exactly. */
  lemma ZeroRateAmortizes(valor: real, n: int)
    requires valor > 0.0 && n > 0
    ensures CalcParcela(valor, 0.0, n).Ok?
    ensures Balance(valor, 0.0, CalcParcela(valor, 0.0, n).value, n) == 0.0
  {
    ZeroRateSchedule(valor, valor / n as real, n);
  }

  /** `1 + q + ... + q^(n-1)`. */
  function GeomSum(q: real, n: nat): real {
    if n == 0 then 0.0 else GeomSum(q, n - 1) + Pow(q, n - 1)
  }

  lemma {:induction false} PowMinusOne(q: real, n: nat)
    ensures Pow(q, n) - 1.0 == (q - 1.0) * GeomSum(q, n)
  {
    if n > 0 {
      PowMinusOne(q, n - 1);
    }
  }

  /** For `q > 1`, the geometric sum stays below `n` times the top power. */
  lemma {:induction false} GeomSumBelow(q: real, n: nat)
    requires q > 1.0 && n > 0
    ensures 0.0 < GeomSum(q, n) < n as real * Pow(q, n)
  {
    var p := Pow(q, n - 1);
    assert p < q * p;
    if n > 1 {
      GeomSumBelow(q, n - 1);
      assert GeomSum(q, n) < (n - 1) as real * p + p;
    }
  }

  /** With a positive rate, the annuity is strictly more than the
      interest-free split `valor / n`. */
  lemma AnnuityExceedsSplit(valor: real, i: real, n: nat)
    requires valor > 0.0 && i > 0.0 && n > 0
    ensures Annuity(valor, i, n) > valor / n as real
  {
    var f, g := Pow(1.0 + i, n), GeomSum(1.0 + i, n);
    PowMinusOne(1.0 + i, n);
    GeomSumBelow(1.0 + i, n);
    QuotientAboveSplit(valor, i, f, g, n as real);
  }

  /** `PV·i·f/(f−1) > PV/n` once `f − 1 = i·g` and `0 < g < n·f`. */
  lemma QuotientAboveSplit(valor: real, i: real, f: real, g: real, n: real)
    requires valor > 0.0 && i > 0.0 && g > 0.0 && n > 0.0
    requires f - 1.0 == i * g && g < n * f
    ensures AnnuityOf(valor, i, f) > valor / n
  {
    assert valor * (i * f) / (f - 1.0) == valor * f / g;
    assert valor * f * n > valor * g;
  }

  /** One term: the installment is the principal plus one month's interest. */
  lemma OneTerm(valor: real, i: real)
    requires valor > 0.0 && i > 0.0
    ensures Annuity(valor, i, 1) == valor * (1.0 + i)
    ensures CalcParcela(valor, i, 1) == Ok(Round2(valor * (1.0 + i)))
  {
    assert Pow(1.0 + i, 1) == 1.0 + i;
  }

  /** 1000 at 1% a month in one payment is 1010. */
  lemma OneTermExample()
    ensures CalcParcela(1000.0, 0.01, 1) == Ok(1010.0)
  {
    OneTerm(1000.0, 0.01);
    assert 1000.0 * 1.01 == 1010.0;
    Round2OfWholeCents(1010.0);
  }

  /** Zero rate: paying the exact split `n` times totals the principal to
      the cent. */
  lemma ZeroRateTotal(valor: real, n: int)
    requires valor > 0.0 && n > 0
    ensures CalcParcela(valor, 0.0, n).Ok?
    ensures CalcTotal(CalcParcela(valor, 0.0, n).value, n) == Ok(Round2(valor))
  {
    var parcela := valor / n as real;
    assert CalcParcela(valor, 0.0, n) == Ok(parcela);
    TotalOfSplit(valor, n as real, parcela);
    CalcTotalPositive(parcela, n);
    assert parcela * n as real == valor;
    assert Round2(parcela * n as real) == Round2(valor);
    assert CalcTotal(parcela, n) == Ok(Round2(valor));
  }

  lemma CalcTotalPositive(parcela: real, n: int)
    requires parcela > 0.0 && n > 0
    ensures CalcTotal(parcela, n) == Ok(Round2(parcela * n as real))
  {
  }

  /** An installment in whole cents totals exactly `parcela * n`: the
      rounding in `calcTotal` changes nothing. */
  lemma TotalOfWholeCents(parcela: real, n: int)
    requires parcela > 0.0 && n > 0 && WholeCents(parcela)
    ensures CalcTotal(parcela, n) == Ok(parcela * n as real)
  {
    WholeCentsTimes(parcela, n);
    Round2OfWholeCents(parcela * n as real);
  }

  /** A whole number of cents times a whole count is a whole number of
      cents. */
  lemma WholeCentsTimes(x: real, n: int)
    requires WholeCents(x)
    ensures WholeCents(x * n as real)
  {
    var k := (x * 100.0).Floor;
    ScaleEqual(x * 100.0, k as real, n as real);
    assert x * n as real * 100.0 == (k * n) as real;
  }

  lemma ScaleEqual(a: real, b: real, c: real)
    requires a == b
    ensures a * c == b * c
  {
  }

  /** The difference of two whole numbers of cents is one too. */
  lemma WholeCentsMinus(x: real, y: real)
    requires WholeCents(x) && WholeCents(y)
    ensures WholeCents(x - y)
  {
    var k, m := (x * 100.0).Floor, (y * 100.0).Floor;
    assert (x - y) * 100.0 == (k - m) as real;
  }

  /** The split `valor / n` multiplied back by `n` is `valor`. */
  lemma TotalOfSplit(valor: real, n: real, parcela: real)
    requires valor > 0.0 && n > 0.0 && parcela == valor / n
    ensures parcela > 0.0 && parcela * n == valor
  {
  }

  /** The sign of the CET follows the sign of `parcela·n − principal`:
      zero when they are equal, never positive below, never negative above. */
  lemma CetSign(principal: real, n: int, parcela: real)
    requires principal > 0.0 && n > 0 && parcela > 0.0
    ensures parcela * n as real == principal ==> CalcularCET(principal, n, parcela) == Ok(0.0)
    ensures parcela * n as real < principal ==> CalcularCET(principal, n, parcela).value <= 0.0
    ensures parcela * n as real > principal ==> CalcularCET(principal, n, parcela).value >= 0.0
  {
    var cet := ((parcela * n as real - principal) / principal) * 100.0;
    Round2OfWholeCents(0.0);
    if parcela * n as real < principal {
      assert cet < 0.0;
      Round2Monotone(cet, 0.0);
    } else if parcela * n as real > principal {
      assert cet > 0.0;
      Round2Monotone(0.0, cet);
    }
  }

  /** 12 payments of 100 on 1000 cost 20%; 10 payments of 90 on 1000 are a
      10% discount. */
  lemma CetExamples()
    ensures CalcularCET(1000.0, 12, 100.0) == Ok(20.0)
    ensures CalcularCET(1000.0, 10, 90.0) == Ok(-10.0)
  {
    Round2OfWholeCents(20.0);
    Round2OfWholeCents(-10.0);
  }
}
