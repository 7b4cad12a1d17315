/** Brazilian taxpayer number (CPF) rules of `src/core/domain/rules/cpf.ts`:
    the mod-11 check digits of the Receita Federal, digit stripping and the
    `ddd.ddd.ddd-dd` display form. */
module Cpf {
  import opened Text

  /** `d_0·top + d_1·(top − 1) + ... + d_(n−1)·(top − n + 1)` over the first
      `n` digits of `c`. */
  function WeightedSum(c: string, n: nat, top: int): int
    requires n <= |c| && AllDigits(c)
  {
    if n == 0 then 0 else WeightedSum(c, n - 1, top) + DigitValue(c[n - 1]) * (top - (n - 1))
  }

  /** `(sum * 10) % 11`, with 10 read as 0. The remainder of a division by
      11 is at most 10, so the source's `=== 11` alternative never applies. */
  function CheckDigit(sum: int): (d: int)
    ensures 0 <= d <= 9
  {
    var remainder := (sum * 10) % 11;
    if remainder == 10 || remainder == 11 then 0 else remainder
  }

  /** `/^(\d)\1{10}$/` on a string of digits: every digit equals the first. */
  predicate AllSame(c: string) {
    forall i :: 0 <= i < |c| ==> c[i] == c[0]
  }

  /** A digit-only CPF that passes: 11 digits, not all equal, and both check
      digits right. */
  predicate ValidDigits(c: string)
    requires AllDigits(c)
  {
    |c| == 11 && !AllSame(c)
    && CheckDigit(WeightedSum(c, 9, 10)) == DigitValue(c[9])
    && CheckDigit(WeightedSum(c, 10, 11)) == DigitValue(c[10])
  }

  /** What `isValidCPF` decides: a non-empty input whose digits pass. */
  predicate ValidCpf(cpf: string) {
    cpf != [] && ValidDigits(Digits(cpf))
  }

  /** `isValidCPF`: strip, check length and repetition, then the two
      check-digit loops. */
  method IsValidCPF(cpf: string) returns (valid: bool)
    ensures valid == ValidCpf(cpf)
  {
    if cpf == [] {
      return false;
    }
    var cleanCpf := Digits(cpf);
    if |cleanCpf| != 11 {
      return false;
    }
    if AllSame(cleanCpf) {
      return false;
    }
    var sum := 0;
    var i := 0;
    while i < 9
      invariant 0 <= i <= 9
      invariant sum == WeightedSum(cleanCpf, i, 10)
    {
      sum := sum + DigitValue(cleanCpf[i]) * (10 - i);
      i := i + 1;
    }
    var remainder := (sum * 10) % 11;
    if remainder == 10 || remainder == 11 {
      remainder := 0;
    }
    if remainder != DigitValue(cleanCpf[9]) {
      return false;
    }
    sum := 0;
    i := 0;
    while i < 10
      invariant 0 <= i <= 10
      invariant sum == WeightedSum(cleanCpf, i, 11)
    {
      sum := sum + DigitValue(cleanCpf[i]) * (11 - i);
      i := i + 1;
    }
    remainder := (sum * 10) % 11;
    if remainder == 10 || remainder == 11 {
      remainder := 0;
    }
    if remainder != DigitValue(cleanCpf[10]) {
      return false;
    }
    return true;
  }

  /** `cleanCPF`: the digit characters of the input, in order. */
  function CleanCPF(cpf: string): (r: string)
    ensures AllDigits(r) && |r| <= |cpf|
    ensures cpf == [] ==> r == []
  {
    if cpf == [] then [] else Digits(cpf)
  }

  /** The `ddd.ddd.ddd-rest` slicing shared by `formatCPF` and by the
      applicant formatters, which apply it without checking the length. */
  function DotDash(c: string): string {
    Slice(c, 0, 3) + "." + Slice(c, 3, 6) + "." + Slice(c, 6, 9) + "-" + SliceFrom(c, 9)
  }

  /** `formatCPF`: empty for empty input, the input itself unless it holds
      exactly 11 digits, otherwise the digits as `ddd.ddd.ddd-dd`. */
  function FormatCPF(cpf: string): (r: string)
    ensures |Digits(cpf)| != 11 ==> r == cpf
    ensures |Digits(cpf)| == 11 ==>
              |r| == 14 && r[3] == '.' && r[7] == '.' && r[11] == '-' && Digits(r) == Digits(cpf)
  {
    if cpf == [] then []
    else
      var cleanCpf := Digits(cpf);
      if |cleanCpf| != 11 then cpf
      else
        DotDashShape(cleanCpf);
        DigitsOfDotDash(cleanCpf);
        DotDash(cleanCpf)
  }

  // ---------------------------------------------------------------------
  // Properties

  /** Separators are not digits. */
  lemma DigitsOfSeparators()
    ensures Digits(".") == [] && Digits("-") == []
  {
    DigitsOfNoDigits(".");
    DigitsOfNoDigits("-");
  }

  /** A non-digit between two pieces drops out of the digit filter. */
  lemma DigitsAround(a: string, sep: char, b: string)
    requires !IsDigit(sep)
    ensures Digits(a + [sep] + b) == Digits(a) + Digits(b)
  {
    var s := [sep];
    DigitsOfNoDigits(s);
    DigitsConcat(a, s);
    DigitsConcat(a + s, b);
    assert Digits(a + s) == Digits(a);
  }

  /** Stripping the separators of the dotted form gives back the digits, for
      any length. */
  lemma DigitsOfDotDash(c: string)
    requires AllDigits(c)
    ensures Digits(DotDash(c)) == c
  {
    var a, b, d, e := DotDashPieces(c);
    DigitsOfPieces(a, b, d, e);
  }

  /** The four pieces the dotted form is cut into: digits only when `c`
      is, and together `c` again. */
  lemma DotDashPieces(c: string) returns (a: string, b: string, d: string, e: string)
    requires AllDigits(c)
    ensures DotDash(c) == a + "." + b + "." + d + "-" + e
    ensures a + b + d + e == c
    ensures AllDigits(a) && AllDigits(b) && AllDigits(d) && AllDigits(e)
  {
    a, b, d, e := Slice(c, 0, 3), Slice(c, 3, 6), Slice(c, 6, 9), SliceFrom(c, 9);
    JoinSlices(c);
    SliceDigits(c, 0, 3);
    SliceDigits(c, 3, 6);
    SliceDigits(c, 6, 9);
  }

  /** The four pieces glue back to the whole string. */
  lemma JoinSlices(c: string)
    ensures Slice(c, 0, 3) + Slice(c, 3, 6) + Slice(c, 6, 9) + SliceFrom(c, 9) == c
  {
    SliceThenRest(c, 0, 3);
    SliceThenRest(c, 3, 6);
    SliceThenRest(c, 6, 9);
  }

  /** Pieces of a digit string are digit strings. */
  lemma SliceDigits(c: string, from: nat, to: nat)
    requires AllDigits(c)
    ensures AllDigits(Slice(c, from, to)) && AllDigits(SliceFrom(c, to))
  {
  }

  /** Digit-only pieces joined by the separators filter back to the pieces
      joined directly. */
  lemma DigitsOfPieces(a: string, b: string, d: string, e: string)
    requires AllDigits(a) && AllDigits(b) && AllDigits(d) && AllDigits(e)
    ensures Digits(a + "." + b + "." + d + "-" + e) == a + b + d + e
  {
    DigitsOfAllDigits(a);
    DigitsOfAllDigits(b);
    DigitsOfAllDigits(d);
    DigitsOfAllDigits(e);
    var x1 := a + "." + b;
    DigitsAround(a, '.', b);
    var x2 := x1 + "." + d;
    DigitsAround(x1, '.', d);
    DigitsAround(x2, '-', e);
  }

  /** Eleven digits format to 14 characters: digits with '.' at 3 and 7 and
      '-' at 11. */
  lemma DotDashShape(c: string)
    requires |c| == 11 && AllDigits(c)
    ensures var f := DotDash(c);
            |f| == 14 && f[3] == '.' && f[7] == '.' && f[11] == '-' &&
            f == c[..3] + "." + c[3..6] + "." + c[6..9] + "-" + c[9..]
  {
  }

  /** `formatCPF` keeps the input when it cannot format it. */
  lemma FormatCpfUnchanged(cpf: string)
    ensures cpf == [] ==> FormatCPF(cpf) == []
    ensures |Digits(cpf)| != 11 ==> FormatCPF(cpf) == cpf
  {
  }

  /** Cleaning a formatted CPF gives the cleaned input. */
  lemma CleanFormatRoundTrip(cpf: string)
    ensures CleanCPF(FormatCPF(cpf)) == CleanCPF(cpf)
  {
    if cpf != [] && |Digits(cpf)| == 11 {
      DotDashShape(Digits(cpf));
      DigitsOfDotDash(Digits(cpf));
    }
  }

  /** Formatting twice is formatting once. */
  lemma FormatCpfIdempotent(cpf: string)
    ensures FormatCPF(FormatCPF(cpf)) == FormatCPF(cpf)
  {
    if cpf != [] && |Digits(cpf)| == 11 {
      var c := Digits(cpf);
      DotDashShape(c);
      DigitsOfDotDash(c);
    }
  }

  /** Cleaning is idempotent. */
  lemma CleanCpfIdempotent(cpf: string)
    ensures CleanCPF(CleanCPF(cpf)) == CleanCPF(cpf)
  {
    if cpf != [] {
      DigitsIdempotent(cpf);
    }
  }

  /** Validity depends only on the digits: a non-empty input is valid iff
      its cleaned form is. */
  lemma ValidIffCleanValid(cpf: string)
    requires cpf != []
    ensures ValidCpf(cpf) <==> ValidCpf(CleanCPF(cpf))
  {
    DigitsIdempotent(cpf);
  }

  /** Eleven equal digits are never valid. */
  lemma RepeatedDigitsInvalid(cpf: string)
    requires |Digits(cpf)| == 11 && AllSame(Digits(cpf))
    ensures !ValidCpf(cpf)
  {
  }

  /** A valid CPF has exactly eleven digits. */
  lemma ValidHasElevenDigits(cpf: string)
    ensures ValidCpf(cpf) ==> |CleanCPF(cpf)| == 11
  {
  }

  /** `52998224725`: weighted sums 295 and 347 give check digits 2 and 5. */
  lemma ExampleValid()
    ensures ValidCpf("52998224725")
  {
    var c := "52998224725";
    ExampleDigits();
    assert c[1] != c[0];
    ExampleFirstSum();
    ExampleSecondSum();
    ExampleCheckDigits();
    assert DigitValue(c[9]) == 2 && DigitValue(c[10]) == 5;
    assert !AllSame(c);
    assert ValidDigits(c);
  }

  lemma ExampleCheckDigits()
    ensures CheckDigit(295) == 2 && CheckDigit(347) == 5
  {
    assert (295 * 10) % 11 == 2;
    assert (347 * 10) % 11 == 5;
  }

  lemma ExampleDigits()
    ensures AllDigits("52998224725") && Digits("52998224725") == "52998224725"
  {
    assert AllDigits("52998224725");
    DigitsOfAllDigits("52998224725");
  }

  lemma ExampleFirstSum()
    ensures AllDigits("52998224725") && WeightedSum("52998224725", 9, 10) == 295
  {
    var c := "52998224725";
    assert AllDigits(c);
    assert WeightedSum(c, 3, 10) == 140;
    assert WeightedSum(c, 6, 10) == 261;
  }

  lemma ExampleSecondSum()
    ensures AllDigits("52998224725") && WeightedSum("52998224725", 10, 11) == 347
  {
    var c := "52998224725";
    assert AllDigits(c);
    assert WeightedSum(c, 3, 11) == 156;
    assert WeightedSum(c, 6, 11) == 296;
    assert WeightedSum(c, 8, 11) == 322;
  }

}
