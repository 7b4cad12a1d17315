# Loan origination core, modelled in Dafny

This project models the core of a small Brazilian personal-loan application
and proves properties of the model. The application registers applicants by
CPF and CEP, offers credit tiers, simulates Price-table loans and contracts
them. The model covers:

- the pricing rules (`calcParcela`, `calcTotal`, `calcJuros`, `calcularCET`);
- the offer rules (the score multiplier, the suggested-term scan and the three offer tiers);
- the CPF rules (check digits, cleaning, formatting);
- the five domain entities and their validating constructors;
- the four application services (credit, loan, applicant, address);
- the classification of errors into HTTP answers;
- the three response mappers.

Modelling choices:

- **Numbers.** Money and rates are exact `real`s; counts and scores are `int`s.
- **Rounding.** `Math.round(x * 100) / 100` is `Round2`, which is `floor(x * 100 + 0.5) / 100`, so halves of a cent round up as in JavaScript. `Round4` does the same to four decimal places.
- **Errors.** A thrown `Error` is a `Result` failure carrying the source's exact message. This is what lets the model prove how the HTTP layer classifies the services' own messages.
- **Stores.** The Prisma repositories are classes over `map`s. The database's unique indexes (the CPF of an applicant, the six fields of an address) are a second map, tied to the first by `Valid()`.
- **Services.** Each service is a class holding its repositories. Operations that only read are functions with `reads` clauses; operations that write are methods with `modifies` clauses.
- **Outside inputs.** Fresh ids and timestamps, which the database mints, are parameters. The CEP gateway is a function parameter. The CDI gateway, together with its annual-to-monthly conversion, is one parameter: the monthly CDI rate or the gateway's failure.
- **Loops and statement sequences.** The loop of `calcularParcelasSugeridas` and the check-digit loops of both CPF validators are methods, and so is `gerarOfertas`, whose body is three guarded pushes onto a list. Each is proved equal to a specification function, and the properties are proved about those functions.
- **Clock.** The database stamps a new contract with the current time. The model assumes that clock does not go back: `ContractRepository.Create` requires that no stored contract is newer than `now`, and `ContractRepository.Valid()` then keeps timestamps non-decreasing in creation order.

Observations the proofs make explicit:

- The error classifier matches marker words as case-sensitive substrings. So "Produto com configuração de parcelas inválida" (feminine, `LoanService.ts:63`) carries no validation marker. Neither do "Parcela excede 30% da renda" and "Valor deve ser positivo": all three answer as 500 internal errors with the message replaced. `HttpErrors.UnclassifiedCeiling` and `HttpErrors.UnclassifiedValor` prove this for two of them.
- `formatCpf` in the applicant mapper and `getFormattedCpf` slice the digits without checking their number. Only for exactly eleven digits do they agree with `formatCPF`, which otherwise returns its input unchanged.

## Model

| member | source | states |
|---|---|---|
| Price.CalcParcela | src/core/domain/rules/price.ts:8-24 | Rejects `valor <= 0`, then a negative rate, then `n <= 0`, each with its own message. With rate zero the installment times `n` is exactly `valor`, unrounded. With a positive rate it is whole cents within half a cent of the annuity `valor·i·f/(f−1)`, where `f = (1+i)^n`. |
| Price.CalcTotal | src/core/domain/rules/price.ts:32-37 | Rejects `parcela <= 0`, then `n <= 0`; otherwise whole cents within half a cent of `parcela·n`. |
| Price.CalcJuros | src/core/domain/rules/price.ts:45-50 | Rejects a non-positive principal, then a non-positive total; otherwise whole cents within half a cent of `total − principal`, which may be negative. |
| Price.CalcularCET | src/core/domain/rules/price.ts:59-69 | Rejects principal, `n` and installment `<= 0`, in that order, with their messages. Otherwise the CET is whole hundredths within half a hundredth of `(parcela·n − principal) / principal · 100`. |
| Price.CetSign | src/core/domain/rules/price.ts:64-68 | The CET is 0 when `parcela·n` equals the principal, at most 0 when below it, and at least 0 when above. |
| Price.CetExamples | src/core/domain/rules/price.ts:64-68 | 12 × 100 on 1000 gives 20%; 10 × 90 on 1000 gives −10%. |
| Price.Round2OfWholeCents | src/core/domain/rules/price.ts:23 | Rounding an amount already in whole cents changes nothing. |
| Price.Round2Idempotent | src/core/domain/rules/price.ts:23 | Rounding to the cent twice is rounding once. |
| Price.Round2Monotone | src/core/domain/rules/price.ts:23 | Rounding to the cent never reverses an order. |
| Price.BalanceClosedForm | src/core/domain/rules/price.ts:18-20 | Closed form of the outstanding balance after `k` payments: `B(k)·i = PV·(1+i)^k·i − pmt·((1+i)^k − 1)`. |
| Price.BalanceStep | src/core/domain/rules/price.ts:18-20 | The closed form at `k − 1` gives it at `k`. |
| Price.ScheduleStep | src/core/domain/rules/price.ts:18-20 | One month of interest and one payment keep the closed-form relation. |
| Price.AnnuityAmortizes | src/core/domain/rules/price.ts:18-20 | Paying the unrounded Price installment `n` times leaves exactly nothing owed. |
| Price.ZeroRateSchedule | src/core/domain/rules/price.ts:14-16 | Without interest, `k` payments reduce the balance by exactly `k·pmt`. |
| Price.ZeroRateAmortizes | src/core/domain/rules/price.ts:14-16 | The zero-rate installment `valor / n`, paid `n` times, settles the loan exactly. |
| Price.PowMinusOne | src/core/domain/rules/price.ts:19 | `(1+i)^n − 1 = i · Σ_{k<n} (1+i)^k`. |
| Price.GeomSumBelow | src/core/domain/rules/price.ts:19-20 | For `q > 1` and `n > 0`, the geometric sum is positive and below `n·q^n`. |
| Price.AnnuityExceedsSplit | src/core/domain/rules/price.ts:19-20 | With a positive rate the unrounded installment exceeds the interest-free split `valor / n`. |
| Price.QuotientAboveSplit | src/core/domain/rules/price.ts:20 | The step of that proof that works on the factor `f` alone. |
| Price.OneTerm | src/core/domain/rules/price.ts:19-23 | For one installment at a positive rate, the result is `Round2(valor·(1+i))`. |
| Price.OneTermExample | src/core/domain/rules/price.ts:19-23 | 1000 at 1% in one installment gives 1010. |
| Price.ZeroRateTotal | src/core/domain/rules/price.ts:14-16 | Without interest, the total of the split installments is the principal to the cent. |
| Price.CalcTotalPositive | src/core/domain/rules/price.ts:32-37 | For positive arguments the total is `Round2(parcela·n)`. |
| Price.TotalOfWholeCents | src/core/domain/rules/price.ts:36 | For an installment in whole cents the total is exactly `parcela·n`. |
| Price.WholeCentsTimes | src/core/domain/rules/price.ts:36 | Whole cents times a count is whole cents. |
| Price.WholeCentsMinus | src/core/domain/rules/price.ts:49 | The difference of two whole-cent amounts is whole cents. |
| Price.TotalOfSplit | src/core/domain/rules/price.ts:14-16 | A positive split is positive and multiplies back to the principal. |
| OfferRules.CalcularMultiplicadorScore | src/core/domain/rules/offers.ts:66-72 | The multiplier is always between 0.5 and 1.5. |
| OfferRules.MultiplicadorMonotone | src/core/domain/rules/offers.ts:66-72 | A higher score never gets a lower multiplier. |
| OfferRules.MultiplicadorEnds | src/core/domain/rules/offers.ts:66-72 | Score 0 gets 0.5 and score 1000 gets 1.5. |
| OfferRules.MaxParcela | src/core/domain/rules/offers.ts:16 | For positive income the ceiling is positive and below the income; `CreditService.MaxMonthlyPaymentIsOfferCeiling` ties it to the applicant's own ceiling. |
| OfferRules.Fits | src/core/domain/rules/offers.ts:91-93 | The estimate test `valor·(1 + taxa·t)/t <= maxParcela`, with JavaScript's division by zero spelled out for `t = 0`. Its use is characterised by `OfferRules.ScanMembership`. |
| OfferRules.Scan | src/core/domain/rules/offers.ts:89-96 | The terms `from, from + 6, …` up to the maximum that fit, in scan order; `OfferRules.ScanMembership` and `OfferRules.ScanAscending` say which and in what order. |
| OfferRules.SuggestedTerms | src/core/domain/rules/offers.ts:81-107 | The scan, then the fallback; `OfferRules.SuggestedTermsSpec` characterises the result and the loop method is proved equal to it. |
| OfferRules.ScanMembership | src/core/domain/rules/offers.ts:89-96 | A term is in the scan iff it is in range, on the six-step stride from the minimum, and its estimate fits the ceiling. |
| OfferRules.ScanAscending | src/core/domain/rules/offers.ts:89-96 | The scanned terms are at least the start and strictly ascending. |
| OfferRules.FallbackAddsNothing | src/core/domain/rules/offers.ts:98-105 | The fallback re-tests only the minimum with the same estimate, so the result is always the scan. |
| OfferRules.SuggestedTermsSpec | src/core/domain/rules/offers.ts:81-107 | Suggested terms are exactly the in-range, on-stride, fitting terms, strictly ascending. |
| OfferRules.CalcularParcelasSugeridas | src/core/domain/rules/offers.ts:81-107 | The loop with its `+= 6` step and the fallback returns exactly `SuggestedTerms`. |
| OfferRules.GerarOfertas | src/core/domain/rules/offers.ts:11-59 | The three pushes, each guarded by a non-empty term list, return exactly `Ofertas`: the guards in order (income, score, product), then the non-empty tiers. |
| OfferRules.Ofertas | src/core/domain/rules/offers.ts:11-59 | The specification `gerarOfertas` is proved against: the three guards in order, then each tier's offer when it has terms. Its shape is in `OfferRules.OfertasAreNonEmptyTiers` and `OfferRules.OfertasShape`. |
| OfferRules.OfertasAreNonEmptyTiers | src/core/domain/rules/offers.ts:22-56 | On success the offers are exactly the tiers with at least one term, in conservative, moderate, maximum order. |
| OfferRules.OfertasShape | src/core/domain/rules/offers.ts:22-56 | At most three offers, each with at least one term and one of the three fixed texts, with strictly increasing amounts. |
| OfferRules.KeepShape | src/core/domain/rules/offers.ts:26-56 | Filtering three increasing tiers by non-empty terms keeps that shape. |
| OfferRules.TierValorsIncrease | src/core/domain/rules/offers.ts:22-56 | For positive income, the 15%, 25% and 30% amounts strictly increase. |
| OfferRules.ValidProductOffersSucceed | src/core/domain/rules/offers.ts:11-59 | With positive income, an admissible score and a product `ProductEntity` accepts, offer generation succeeds. |
| OfferRules.TierOfferValid | src/core/domain/rules/offers.ts:26-31 | For such a product, every tier that is pushed passes `OfferEntity` validation. |
| Cpf.IsValidCPF | src/core/domain/rules/cpf.ts:6-37 | The two check-digit loops decide exactly `ValidCpf`: non-empty, 11 digits after cleaning, not all equal, both check digits right. |
| Cpf.ValidCpf | src/core/domain/rules/cpf.ts:6-37 | The specification the validator's loops are proved against: non-empty, eleven digits after cleaning, not all the same digit, both check digits right. |
| Cpf.FormatCPF | src/core/domain/rules/cpf.ts:44-51 | Input without exactly eleven digits comes back unchanged. Eleven digits give fourteen characters with '.' at 3 and 7 and '-' at 11, carrying the same digits. |
| Cpf.DotDash | src/core/domain/rules/cpf.ts:50 | The `ddd.ddd.ddd-rest` slicing; its shape is in `Cpf.DotDashShape` and its digits in `Cpf.DigitsOfDotDash`. |
| Cpf.CheckDigit | src/core/domain/rules/cpf.ts:23-24 | A check digit is always 0 to 9: remainder 10 maps to 0. |
| Cpf.CleanCPF | src/core/domain/rules/cpf.ts:58-61 | The result is digits only, no longer than the input, and empty for empty input. |
| Cpf.DigitsOfDotDash | src/core/domain/rules/cpf.ts:50 | Stripping the separators of the dotted form gives back the digits, for any length. |
| Cpf.DotDashShape | src/core/domain/rules/cpf.ts:50 | Eleven digits format to 14 characters, with `.` at 3 and 7 and `-` at 11. |
| Cpf.DigitsAround | src/core/domain/rules/cpf.ts:50 | A non-digit separator drops out of the digit filter. |
| Cpf.DigitsOfSeparators | src/core/domain/rules/cpf.ts:50 | `.` and `-` are not digits. |
| Cpf.FormatCpfUnchanged | src/core/domain/rules/cpf.ts:44-51 | Empty input gives empty output; input without exactly 11 digits is returned unchanged. |
| Cpf.CleanFormatRoundTrip | src/core/domain/rules/cpf.ts:44-61 | `cleanCPF(formatCPF(s)) == cleanCPF(s)` for every `s`. |
| Cpf.FormatCpfIdempotent | src/core/domain/rules/cpf.ts:44-51 | Formatting twice is formatting once. |
| Cpf.CleanCpfIdempotent | src/core/domain/rules/cpf.ts:58-61 | Cleaning twice is cleaning once. |
| Cpf.ValidIffCleanValid | src/core/domain/rules/cpf.ts:6-13 | A non-empty CPF is valid iff its cleaned form is. |
| Cpf.RepeatedDigitsInvalid | src/core/domain/rules/cpf.ts:16 | Eleven equal digits are never valid. |
| Cpf.ValidHasElevenDigits | src/core/domain/rules/cpf.ts:10-13 | A valid CPF cleans to exactly 11 digits. |
| Cpf.ExampleValid | src/core/domain/rules/cpf.ts:6-37 | The CPF 529.982.247-25 is valid. |
| Cpf.ExampleCheckDigits | src/core/domain/rules/cpf.ts:23-25 | Weighted sums 295 and 347 give check digits 2 and 5. |
| Cpf.ExampleDigits | src/core/domain/rules/cpf.ts:10 | That CPF's text is all digits and cleans to itself. |
| Cpf.ExampleFirstSum | src/core/domain/rules/cpf.ts:19-22 | Its first weighted sum is 295. |
| Cpf.ExampleSecondSum | src/core/domain/rules/cpf.ts:28-31 | Its second weighted sum is 347. |
| ProductEntity.NewProductEntity | src/core/domain/entities/Product.ts:24-32 | Succeeds iff id and name are present, the rate is not negative and `1 <= min <= max`. Each failure carries the message of the first failing check, and success keeps the product as it is. |
| ProductEntity.IsValidParcelas | src/core/domain/entities/Product.ts:34-36 | A count within `[minParcelas, maxParcelas]`; `ProductEntity.ValidRangeAccepted` and `LoanService.CheckParcelasAgreesWithProduct` relate it to the range checks. |
| ProductEntity.ValidRangeAccepted | src/core/domain/entities/Product.ts:28-36 | For a valid product both ends of the range pass `isValidParcelas`, and every accepted count is at least 1. |
| OfferEntity.NewOffer | src/core/domain/entities/Offer.ts:16-24 | Succeeds iff the amount is positive, the term list is non-empty and every term is positive; each failure has its message. |
| OfferEntity.Insert | src/core/domain/entities/Offer.ts:38 | Inserting into an ascending list keeps it ascending and adds exactly that element. |
| OfferEntity.InsertPermutes | src/core/domain/entities/Offer.ts:38 | Insertion adds one copy of the element to the multiset. |
| OfferEntity.SortAscending | src/core/domain/entities/Offer.ts:38 | The sorted copy is ascending, with the same length and elements. |
| OfferEntity.SortPermutes | src/core/domain/entities/Offer.ts:38 | The sorted copy is a permutation of the original. |
| OfferEntity.SortedEnds | src/core/domain/entities/Offer.ts:38-39 | The sorted copy's first and last elements are the minimum and maximum of the list. |
| OfferEntity.GetParcelasText | src/core/domain/entities/Offer.ts:33-40 | One term gives `"<n> parcelas"`. More give `"<lo> a <hi> parcelas"`, where `lo` and `hi` are the list's minimum and maximum. |
| OfferEntity.ParcelasTextIgnoresOrder | src/core/domain/entities/Offer.ts:38-39 | Two lists of several terms that are permutations of each other give the same text. |
| OfferEntity.SameEnds | src/core/domain/entities/Offer.ts:38-39 | Permutations sort to the same ends. |
| OfferEntity.SameElements | src/core/domain/entities/Offer.ts:38 | Permutations have the same elements. |
| ContractEntity.IsValidStatusNamesStatus | src/core/domain/entities/Contract.ts:71-73 | A status text is valid iff it names a `ContractStatus`, and distinct statuses have distinct names. |
| ContractEntity.IsValidStatus | src/core/domain/entities/Contract.ts:71-73 | The three status names; `ContractEntity.IsValidStatusNamesStatus` proves it accepts exactly the names of `ContractStatus`. |
| ContractEntity.NewContract | src/core/domain/entities/Contract.ts:52-69 | Succeeds iff ids are present, the amounts and rate are in range, the status is valid and all six address fields are present. Each failure carries the message of the first failing check. |
| ContractEntity.ValidContractHasStatus | src/core/domain/entities/Contract.ts:60-62 | A constructed contract's status names a `ContractStatus`. |
| ContractEntity.GetTotalValue | src/core/domain/entities/Contract.ts:75-77 | Installment times count, unrounded; `ContractEntity.TotalValueMatchesCalcTotal` relates it to `calcTotal`. |
| ContractEntity.TotalValueMatchesCalcTotal | src/core/domain/entities/Contract.ts:75-77 | For a constructed contract, the unrounded `parcelaCalculada·parcelas` is positive and within half a cent of `calcTotal` on the same terms. |
| ContractEntity.PositiveProduct | src/core/domain/entities/Contract.ts:75-77 | The product of two positive amounts is positive. |
| ContractEntity.GetFormattedAddress | src/core/domain/entities/Contract.ts:79-81 | The snapshot's one-line address; `ContractEntity.SnapshotFormatsLikeAddress` shows it is the address's own. |
| ContractEntity.GetFormattedCep | src/core/domain/entities/Contract.ts:83-86 | The snapshot CEP's digits, hyphenated after the fifth; its round trip is `ContractEntity.FormattedCepRoundTrip`. |
| ContractEntity.FormattedCepRoundTrip | src/core/domain/entities/Contract.ts:83-86 | Removing the hyphen gives back the snapshot CEP's digits, for any length; the text is one character longer. |
| ContractEntity.SnapshotFormatsLikeAddress | src/core/domain/entities/Contract.ts:79-86 | A snapshot copied from an address formats its line and CEP exactly as that address does. |
| ApplicantEntity.IsValidCpf | src/core/domain/entities/Applicant.ts:41-64 | The entity's own check-digit loops decide exactly `CpfOk`. |
| ApplicantEntity.CpfOkAgreesWithRules | src/core/domain/entities/Applicant.ts:41-64 | On every non-empty string the entity's check agrees with `isValidCPF`. |
| ApplicantEntity.NewApplicant | src/core/domain/entities/Applicant.ts:28-39 | Succeeds iff id, name, a valid CPF, positive income, a score in [0, 1000] and an address id are present. Each failure carries the message of the first failing check. |
| ApplicantEntity.GetFormattedCpf | src/core/domain/entities/Applicant.ts:66-69 | The CPF's digits sliced as `ddd.ddd.ddd-rest` whatever their number; its round trip is `ApplicantEntity.FormattedCpfRoundTrip`. |
| ApplicantEntity.FormattedCpfRoundTrip | src/core/domain/entities/Applicant.ts:66-69 | Removing `.` and `-` gives back the digits for any length; for 11 digits the text equals `formatCPF`'s. |
| ApplicantEntity.StripDotDash | src/core/domain/entities/Applicant.ts:66-69 | Removing the separators from the dotted form of a digit string gives the string. |
| ApplicantEntity.StripIsDigits | src/core/domain/entities/Applicant.ts:66-69 | On text made of digits, dots and hyphens, removing the separators is the digit filter. |
| ApplicantEntity.GetMaxMonthlyPayment | src/core/domain/entities/Applicant.ts:71-73 | For positive income the ceiling is positive and below the income. |
| AddressEntity.IsValidCep | src/core/domain/entities/Address.ts:40-43 | Exactly eight digits after dropping every non-digit; `AddressEntity.IsValidCepIgnoresNonDigits` states its invariance. |
| AddressEntity.IsValidCepIgnoresNonDigits | src/core/domain/entities/Address.ts:40-43 | Punctuation never changes the CEP test. |
| AddressEntity.NewAddress | src/core/domain/entities/Address.ts:26-38 | Succeeds iff the id is present, the CEP has 8 digits, the state has 2 characters and the other four fields are present. Each failure carries the message of the first failing check. |
| AddressEntity.HyphenateCep | src/core/domain/entities/Address.ts:45-48 | The hyphenated text is one character longer than its input. |
| AddressEntity.UnhyphenateCep | src/core/domain/entities/Address.ts:45-48 | Removing the hyphen from hyphenated digits gives the digits, for any length. |
| AddressEntity.DigitsHaveNoHyphen | src/core/domain/entities/Address.ts:45-48 | Neither part of a digit string holds a hyphen. |
| AddressEntity.RemoveAroundHyphen | src/core/domain/entities/Address.ts:45-48 | Removing the only hyphen from `a-b` gives `ab`. |
| AddressEntity.RemoveHyphenAfter | src/core/domain/entities/Address.ts:45-48 | Removing a trailing hyphen from hyphen-free text gives the text. |
| AddressEntity.GetFormattedCep | src/core/domain/entities/Address.ts:45-48 | The CEP's digits with a hyphen after the fifth; its shape is `AddressEntity.FormattedCepShape`. |
| AddressEntity.FormattedCepShape | src/core/domain/entities/Address.ts:45-48 | A valid address formats its CEP as `ddddd-ddd`, and removing the hyphen gives its digits. |
| AddressEntity.GetFullAddress | src/core/domain/entities/Address.ts:50-52 | `street, neighborhood, city - state`; `AddressEntity.FullAddressEnds` states its ends. |
| AddressEntity.FullAddressEnds | src/core/domain/entities/Address.ts:50-52 | The one-line address starts with the street and ends with the state. |
| Repositories.AddressRepository.FindById | src/infra/repositories/AddressRepository.ts:28-39 | Finds a record iff one is stored under the id, and returns that record. |
| Repositories.AddressRepository.FindByUniqueFields | src/infra/repositories/AddressRepository.ts:41-68 | Finds a record iff one has those six fields, and returns a stored record with them. |
| Repositories.AddressRepository.Create | src/infra/repositories/AddressRepository.ts:7-26 | A taken six-field key fails with "Erro ao criar endereço" and changes nothing. Otherwise exactly one record is added and indexed, and the store stays consistent. |
| Repositories.ApplicantRepository.FindById | src/infra/repositories/ApplicantRepository.ts:30-44 | Finds a record iff one is stored under the id, and returns that record. |
| Repositories.ApplicantRepository.FindByCpf | src/infra/repositories/ApplicantRepository.ts:46-60 | Finds a record iff one has exactly that CPF, and returns a stored record with it. |
| Repositories.ApplicantRepository.Create | src/infra/repositories/ApplicantRepository.ts:7-28 | A taken CPF fails with "Erro ao criar solicitante" and changes nothing. Otherwise exactly one record is added with the fresh id and timestamp, and the store stays consistent. |
| Repositories.ApplicantRepository.UpdateScore | src/infra/repositories/ApplicantRepository.ts:78-100 | A missing id fails and changes nothing; otherwise only that record's score changes. |
| Repositories.ProductRepository.FindById | src/infra/repositories/ProductRepository.ts:27-38 | Finds a record iff one is stored under the id, and returns that record. |
| Repositories.ContractRepository.FindById | src/infra/repositories/ContractRepository.ts:43-62 | Finds a record iff one is stored under the id, and returns that record. |
| Repositories.ContractRepository.NewestFirst | src/infra/repositories/ContractRepository.ts:64-84 | The walk yields exactly the stored contracts of that applicant among the given ids, no more of them than ids. For ids in timestamp order it yields newest first; for distinct ids no contract comes twice. |
| Repositories.ContractRepository.FindByApplicantId | src/infra/repositories/ContractRepository.ts:64-84 | Yields exactly the stored contracts of that applicant, each once, ordered by `createdAt` descending. |
| Repositories.ContractRepository.Create | src/infra/repositories/ContractRepository.ts:7-41 | Adds exactly one record under the fresh id and timestamp, appended to the creation order. The store stays consistent, timestamp order included, given a clock that does not go back. |
| CreditService.CalcularMultiplicadorScore | src/core/application/services/CreditService.ts:95-101 | The service's multiplier is between 0.5 and 1.5. |
| CreditService.MultiplierTablesAgree | src/core/application/services/CreditService.ts:95-101 | The service's table equals the offer rules' table on every score. |
| CreditService.MultiplierMonotone | src/core/application/services/CreditService.ts:95-101 | A higher score never gets a lower multiplier. |
| CreditService.LimiteMonotone | src/core/application/services/CreditService.ts:83-87 | For a fixed non-negative income, the credit limit never falls as the score rises. |
| CreditService.LimiteForMonotone | src/core/application/services/CreditService.ts:84-87 | A larger multiplier never gives a smaller limit. |
| CreditService.LimiteBounds | src/core/application/services/CreditService.ts:83-87 | The limit lies between 6 and 18 months of income, give or take half a cent. |
| CreditService.ScaleMonotone | src/core/application/services/CreditService.ts:85 | Scaling a non-negative amount preserves the order of the factors. |
| CreditService.MaxMonthlyPaymentIsOfferCeiling | src/core/domain/entities/Applicant.ts:71-73 | The applicant's ceiling `getMaxMonthlyPayment` is the 30% ceiling the offer rules apply (`offers.ts:16`), three tenths of the income, and grows with the income. |
| CreditService.CreditService.GerarOfertasPara | src/core/application/services/CreditService.ts:20-44 | Checks, in order: empty applicant id, empty product id, missing applicant, missing product. Then a failure of the offer rules passes through, an empty list becomes "Nenhuma oferta disponível…", and a non-empty list is returned as it is. Success means one to three offers, each with terms, in increasing amount. |
| CreditService.CreditService.OffersForValidProduct | src/core/application/services/CreditService.ts:37-41 | For an admissible applicant and a valid product, the only possible failure is "no offer available". |
| CreditService.CreditService.PodeContratar | src/core/application/services/CreditService.ts:53-67 | Rejects empty id, `valor <= 0`, `parcelas <= 0` and a missing applicant, in order. Otherwise it answers whether `valor / parcelas` is within 30% of the income. |
| CreditService.CreditService.CalcularLimiteCredito | src/core/application/services/CreditService.ts:74-88 | Rejects an empty id and a missing applicant. Otherwise the limit is whole cents and equals `Round2(renda·12·multiplier(score))`. |
| LoanService.ValidateSimulacaoParams | src/core/application/services/LoanService.ts:195-205 | Rejects empty applicant id, empty product id, `valor <= 0` and `parcelas <= 0`, in order. |
| LoanService.CheckParcelas | src/core/application/services/LoanService.ts:62-68 | A zero range end is a misconfigured product. Otherwise a count outside the range fails with both ends in the message. |
| LoanService.CheckParcelasAgreesWithProduct | src/core/application/services/LoanService.ts:66-68 | For a valid product, the checks reject exactly the counts `isValidParcelas` rejects. |
| LoanService.ParcelasRangeMessage | src/core/application/services/LoanService.ts:67 | The range message with both ends in decimal; `Text.IntToStringInjective` makes distinct ranges give distinct messages. |
| LoanService.Quote | src/core/application/services/LoanService.ts:84-96 | Fails iff `calcParcela` or `calcTotal` fails, with their messages. On success the rate is `Round4` of the effective rate: four decimal places, within half a ten-thousandth of it. Installment, total and interest are whole cents. |
| LoanService.Figures | src/core/application/services/LoanService.ts:87-96 | The figures once the installment is known; `LoanService.FiguresOfWholeCents` states them for an installment in cents. |
| LoanService.FiguresOfWholeCents | src/core/application/services/LoanService.ts:88-95 | For an installment in cents nothing is rounded away: the total is exactly installment × count, and for a principal in cents the interest is total − principal. |
| LoanService.QuoteZeroRate | src/core/application/services/LoanService.ts:84-96 | Without interest the installment is the split to the cent, the total is the principal to the cent, and the interest is zero for a principal in cents. |
| LoanService.QuotePositiveRate | src/core/application/services/LoanService.ts:84-96 | With a positive rate the reported installment is `calcParcela`'s and the total is installment × count. For a principal in cents, the interest is total − principal. |
| LoanService.PendingContract | src/core/application/services/LoanService.ts:128-143 | The contract handed to the repository; `LoanService.LoanService.PendingContractIsValid` says when it passes validation. |
| LoanService.LoanService.Simular | src/core/application/services/LoanService.ts:41-97 | The argument checks, the lookups, the term checks and the 30% ceiling on `valor / parcelas` all come before the CDI rate. The result is then the quote at `taxaMesBase + cdiMensal`. Success implies every check passed. |
| LoanService.LoanService.SimulationAgreesWithPodeContratar | src/core/application/services/LoanService.ts:70-75 | A successful simulation passes `podeContratar`. One that passes the term checks but fails `podeContratar` is refused for the 30% ceiling. |
| LoanService.LoanService.Contratar | src/core/application/services/LoanService.ts:107-149 | Nothing is written unless the simulation succeeds and the address exists. Then exactly one `PENDENTE` contract is appended, with the simulated rate and installment and a copy of the address; its id and status are returned, and it is among the applicant's contracts. |
| LoanService.LoanService.PendingContractIsValid | src/core/application/services/LoanService.ts:128-143 | The stored contract passes `ContractEntity` validation iff the reported installment is positive, given a valid address. |
| LoanService.LoanService.FindContractById | src/core/application/services/LoanService.ts:156-165 | Rejects an empty id and a missing contract; otherwise it returns the stored contract. |
| LoanService.LoanService.FindContractsByApplicant | src/core/application/services/LoanService.ts:172-176 | Rejects an empty id; otherwise it returns exactly that applicant's stored contracts, each once, newest first. |
| ApplicantService.ValidateApplicantData | src/core/application/services/ApplicantService.ts:116-129 | Rejects a trimmed name shorter than 2, an empty CPF, an empty CEP and non-positive income, in order, each with its message. |
| ApplicantService.CalculateInitialScore | src/core/application/services/ApplicantService.ts:136-144 | The initial score is always between 550 and 750. |
| ApplicantService.InitialScoreMonotone | src/core/application/services/ApplicantService.ts:136-144 | A higher income never gets a lower initial score, and every initial score is in [0, 1000]. |
| ApplicantService.Registration | src/core/application/services/ApplicantService.ts:45-51 | The payload handed to the repository: trimmed name, digit-only CPF, income, initial score and address id. `ApplicantService.RegistrationIsValidApplicant` shows it passes `ApplicantEntity`, and the `records` clause of `ApplicantService.ApplicantService.CadastrarSolicitante` shows it is what gets stored. |
| ApplicantService.RegistrationIsValidApplicant | src/core/application/services/ApplicantService.ts:45-51 | A registration that passed the service's checks also passes `ApplicantEntity`. |
| ApplicantService.ApplicantService.CleanCpfsUnique | src/core/application/services/ApplicantService.ts:33-36 | In a consistent store no two applicants share a cleaned CPF. |
| ApplicantService.ApplicantService.CadastrarSolicitante | src/core/application/services/ApplicantService.ts:24-54 | The input checks, the CPF check, the duplicate check and the CEP lookup each reject with their message before anything is written. On success exactly one applicant is added: trimmed name, digit-only CPF, the initial score and the resolved address. An address with the gateway's six fields is reused and the address store is unchanged; otherwise exactly one address with those fields is added under the fresh id. Both stores stay consistent. |
| ApplicantService.ApplicantService.FindById | src/core/application/services/ApplicantService.ts:61-70 | Rejects an empty id and a missing applicant; otherwise it returns the stored record. |
| ApplicantService.ApplicantService.FindByCpf | src/core/application/services/ApplicantService.ts:77-87 | Rejects an empty CPF. Otherwise it finds an applicant iff one is stored under the cleaned CPF. |
| ApplicantService.ApplicantService.FindByCpfIgnoresFormatting | src/core/application/services/ApplicantService.ts:77-87 | A CPF with or without its dots and hyphen finds the same applicant. |
| ApplicantService.ApplicantService.UpdateScore | src/core/application/services/ApplicantService.ts:103-110 | Rejects an empty id and a score outside [0, 1000]. Otherwise only that applicant's score changes. |
| AddressService.LookupZip | src/core/application/services/AddressService.ts:26-38 | Rejects an empty CEP, then a CEP without 8 digits, before the gateway. Gateway failures pass through, and an empty answer is "CEP não encontrado". |
| AddressService.LookupAsksCleanCep | src/core/application/services/AddressService.ts:29-35 | The gateway is asked only about the digit-only CEP. |
| AddressService.LookupIgnoresPunctuation | src/core/application/services/AddressService.ts:29 | Punctuation in the CEP never changes the outcome as long as some digit is left. A CEP of punctuation only, such as "-", is rejected for not having 8 digits, while its empty digit string would be rejected as missing. |
| AddressService.LookupPunctuationOnly | src/core/application/services/AddressService.ts:26-32 | A non-empty CEP with no digit fails the 8-digit check, while its empty cleaned form would fail as missing. |
| AddressService.AddressService.ResolveOrCreateByZip | src/core/application/services/AddressService.ts:25-65 | A failed lookup changes nothing, and an existing six-field match is returned unchanged. Otherwise exactly one address with the gateway's fields is created. Afterwards the returned address is the one its fields find, so a repeat call creates nothing. |
| AddressService.AddressService.FindById | src/core/application/services/AddressService.ts:72-81 | Rejects an empty id and a missing address; otherwise it returns the stored record. |
| HttpErrors.NewHttpError | src/interface/http/errors.ts:5-10 | Keeps the message; status defaults to 500 and code to `INTERNAL_ERROR`. |
| HttpErrors.NewClassError | src/interface/http/errors.ts:13-59 | Each subclass fixes its status and code; an omitted message becomes the subclass's default. |
| HttpErrors.ClassesAreDistinct | src/interface/http/errors.ts:13-59 | The eight subclasses have pairwise distinct statuses and codes. Only internal and unavailable are 5xx. The base class's default code differs from the internal-server subclass's. |
| HttpErrors.MapErrorToHttpStatus | src/interface/http/errors.ts:61-109 | An `HttpError` keeps its status, message and code. Other errors take the first matching marker class (404, 409, 422, 503) and keep their message. With no marker they are 500 with the message replaced. |
| HttpErrors.PlainErrorsAnswerAsSubclass | src/interface/http/errors.ts:70-108 | Every plain error answers with the status and code of a subclass other than 400/401/403. The message is kept unless the answer is 500, which is always the fixed internal error. |
| HttpErrors.ClassErrorPassesThrough | src/interface/http/errors.ts:62-68 | A subclass error answers with its own status, code and message. |
| HttpErrors.CreateErrorResponse | src/interface/http/errors.ts:111-121 | An `HttpError` keeps its code and message. Any other error gets the code of the first class whose marker its message contains (not found, conflict, validation, unavailable), with the message kept, or the internal error's code and default message. The code in the body belongs to exactly the class whose status `mapErrorToHttpStatus` sends. |
| HttpErrors.NoMarkerForMissingChars | src/interface/http/errors.ts:71-108 | A message lacking one character of every marker is a 500. |
| HttpErrors.ConflictFor | src/interface/http/errors.ts:79-85 | A message with a conflict marker and no not-found marker is a 409. |
| HttpErrors.ValidationFor | src/interface/http/errors.ts:87-93 | A message with a validation marker and no earlier marker is a 422. |
| HttpErrors.UnavailableFor | src/interface/http/errors.ts:95-101 | A message with an unavailable marker and no earlier marker is a 503. |
| HttpErrors.NotFoundApplicant | src/interface/http/errors.ts:71-77 | "Solicitante não encontrado" answers 404 `NOT_FOUND`. |
| HttpErrors.ConflictCpf | src/interface/http/errors.ts:79-85 | "CPF já cadastrado" answers 409 `CONFLICT`. |
| HttpErrors.ValidationCpf | src/interface/http/errors.ts:87-93 | "CPF inválido" answers 422 `VALIDATION_ERROR`. |
| HttpErrors.ValidationId | src/interface/http/errors.ts:87-93 | "ID é obrigatório" answers 422 `VALIDATION_ERROR`. |
| HttpErrors.UnavailableCepTimeout | src/interface/http/errors.ts:95-101 | "Timeout na consulta do CEP" answers 503 `SERVICE_UNAVAILABLE`. |
| HttpErrors.UnclassifiedCeiling | src/interface/http/errors.ts:103-108 | "Parcela excede 30% da renda" carries no marker and answers as the fixed 500 internal error. |
| HttpErrors.UnclassifiedValor | src/interface/http/errors.ts:103-108 | "Valor deve ser positivo" answers as the fixed 500 internal error. |
| LoanMapper.ToContractResponseDto | src/interface/mappers/loan.mapper.ts:5-10 | The id and status only; `LoanMapper.ContractResponseKeepsIdAndStatus` states what it keeps and forgets. |
| LoanMapper.ContractResponseKeepsIdAndStatus | src/interface/mappers/loan.mapper.ts:5-10 | The short response carries the id as `contractId` and the status. Two contracts get the same response iff they agree on both. |
| LoanMapper.ToContractDetailResponseDto | src/interface/mappers/loan.mapper.ts:29-43 | The applicant and product summaries are present iff the contract has them. |
| LoanMapper.DetailKeepsAllButForgotten | src/interface/mappers/loan.mapper.ts:12-45 | Two contracts get the same detail iff they differ only in the applicant's address id, timestamp and address, and in the product's timestamp. |
| LoanMapper.DetailCopiesStoredFields | src/interface/mappers/loan.mapper.ts:13-28 | The fifteen stored fields pass through unchanged. |
| LoanMapper.ToContractDetailResponseDtoArray | src/interface/mappers/loan.mapper.ts:47-49 | One detail per contract, same length and order. |
| LoanMapper.DetailArrayConcat | src/interface/mappers/loan.mapper.ts:47-49 | Mapping a concatenation gives the concatenation of the mapped parts. |
| LoanMapper.FormatDate | src/interface/mappers/loan.mapper.ts:62-65 | A missing date (null, undefined or empty text) gives "Data não disponível". Anything else is handed to the date renderer. |
| LoanMapper.FormatCep | src/interface/mappers/loan.mapper.ts:91-94 | The text is one character longer than the CEP's digits. |
| LoanMapper.FormatCepRoundTrip | src/interface/mappers/loan.mapper.ts:91-94 | Removing the hyphen gives back the digits. The mapper agrees with the address's and the contract's own formatted CEP. |
| LoanMapper.FormatCepShape | src/interface/mappers/loan.mapper.ts:91-94 | Eight digits give `ddddd-ddd`. |
| ProductMapper.ToResponseDto | src/interface/mappers/product.mapper.ts:5-15 | The seven fields copied; `ProductMapper.ResponseRoundTrip` reads them back. |
| ProductMapper.ResponseRoundTrip | src/interface/mappers/product.mapper.ts:5-15 | All seven fields are copied: the product can be read back from its response, and every response is the response of its product. |
| ProductMapper.ToResponseDtoArray | src/interface/mappers/product.mapper.ts:17-19 | One response per product, same length and order. |
| ProductMapper.ResponseArrayRoundTrip | src/interface/mappers/product.mapper.ts:17-19 | The array form can be read back too. |
| ProductMapper.FormatParcelas | src/interface/mappers/product.mapper.ts:25-30 | One count or the `min a max` range; `ProductMapper.FormatParcelasForm` tells the two forms apart. |
| ProductMapper.FormatParcelasForm | src/interface/mappers/product.mapper.ts:25-30 | The text has one space exactly when `min == max` (the single form) and three otherwise (the range form). |
| ProductMapper.IntTextHasNoSpace | src/interface/mappers/product.mapper.ts:27-29 | A rendered integer holds no space. |
| ProductMapper.SpacesConcat | src/interface/mappers/product.mapper.ts:27-29 | Spaces add up over concatenation. |
| ProductMapper.SpacesOfNoSpace | src/interface/mappers/product.mapper.ts:27-29 | Text without a space counts none. |
| ProductMapper.GetProductDescription | src/interface/mappers/product.mapper.ts:32-34 | The description starts with the name and `" - "` and ends with `" - "` and the range text. |
| ProductMapper.HeadAndTail | src/interface/mappers/product.mapper.ts:32-34 | The first and last of three joined pieces sit at the two ends. |
| ProductMapper.DescriptionReadsNameRateAndRange | src/interface/mappers/product.mapper.ts:32-34 | The description depends only on name, rate and term range. |
| ApplicantMapper.ToResponseDto | src/interface/mappers/applicant.mapper.ts:14-23 | The address is present in the response iff the applicant has one. |
| ApplicantMapper.ResponseRoundTrip | src/interface/mappers/applicant.mapper.ts:5-25 | All seven applicant fields and all eight address fields are copied: the applicant can be read back, and every response is the response of its applicant. |
| ApplicantMapper.ToResponseDtoArray | src/interface/mappers/applicant.mapper.ts:27-29 | One response per applicant, same length and order. |
| ApplicantMapper.ResponseArrayRoundTrip | src/interface/mappers/applicant.mapper.ts:27-29 | The array form can be read back too. |
| ApplicantMapper.FormatCpf | src/interface/mappers/applicant.mapper.ts:31-34 | The digits sliced as `ddd.ddd.ddd-rest` without a length check; `ApplicantMapper.FormatCpfAgreesWithRules` compares it with `formatCPF`. |
| ApplicantMapper.FormatCpfAgreesWithRules | src/interface/mappers/applicant.mapper.ts:31-34 | Cleaning the text gives the input's digits for any input. For 11 digits it is the 14-character `formatCPF` text. |
| Seqs.MapSeq | src/interface/mappers/loan.mapper.ts:47-49 | `map` gives one result per element, in order. |
| Seqs.MapConcat | src/interface/mappers/loan.mapper.ts:47-49 | Mapping distributes over concatenation. |
| Seqs.MapInverse | src/interface/mappers/product.mapper.ts:17-19 | Mapping with a left inverse undoes a mapping. |
| Text.Digits | src/core/domain/rules/cpf.ts:60 | `replace(/\D/g, '')` keeps only digits and never lengthens. |
| Text.DigitsConcat | src/core/domain/rules/cpf.ts:60 | The digit filter distributes over concatenation. |
| Text.DigitsOfAllDigits | src/core/domain/rules/cpf.ts:60 | A digit string filters to itself. |
| Text.DigitsIdempotent | src/core/domain/rules/cpf.ts:60 | Filtering twice is filtering once. |
| Text.DigitsOfNoDigits | src/core/domain/rules/cpf.ts:60 | Text without digits filters to nothing. |
| Text.Slice | src/core/domain/rules/cpf.ts:50 | `slice(a, b)` clamps to the length and equals the sequence slice when in range. |
| Text.SliceFrom | src/core/domain/rules/cpf.ts:50 | `slice(a)` is the suffix from `a`, or empty past the end. |
| Text.SliceThenRest | src/core/domain/rules/cpf.ts:50 | Cutting a string and gluing the pieces back loses nothing. |
| Text.Remove | src/core/domain/entities/Contract.ts:83-86 | Removing a character never lengthens the text. A character is kept exactly when it is not the removed one, with the same number of copies. |
| Text.RemoveConcat | src/core/domain/entities/Contract.ts:83-86 | Removal distributes over concatenation. |
| Text.RemoveAbsent | src/core/domain/entities/Contract.ts:83-86 | Removing an absent character changes nothing. |
| Text.ContainsHasChar | src/interface/http/errors.ts:71 | Every character of an occurring marker occurs in the message. |
| Text.OccursContains | src/interface/http/errors.ts:71 | An occurrence at a known index is an occurrence. |
| Text.NotContainsMissingChar | src/interface/http/errors.ts:71 | A marker with a character the message lacks does not occur in it. |
| Text.NatToString | src/core/application/services/LoanService.ts:67 | A natural number renders as a non-empty digit string whose decimal value is the number, with no leading zero except for `0` itself. |
| Text.NatToStringInjective | src/core/application/services/LoanService.ts:67 | Distinct numbers render differently. |
| Text.IntToString | src/core/application/services/LoanService.ts:67 | An integer renders as non-empty text: digits denoting it when it is not negative; otherwise '-' followed by digits denoting its magnitude. No leading zero unless the text is `0`. |
| Text.IntToStringInjective | src/core/application/services/LoanService.ts:67 | Distinct integers render differently, so the range message names its two ends unambiguously. |
| Text.Trim | src/core/application/services/ApplicantService.ts:116-118 | `trim()` gives a window of the input with only white space outside it, which neither starts nor ends with white space. It is empty exactly when the input is all white space. |
| Text.TrimStart | src/core/application/services/ApplicantService.ts:116-118 | A suffix of the input that does not start with white space, and all that is cut off is white space, so exactly the leading white space goes. |
| Text.TrimEnd | src/core/application/services/ApplicantService.ts:116-118 | A prefix of the input that does not end with white space, and all that is cut off is white space, so exactly the trailing white space goes. |
| Price.Pow | src/core/domain/rules/price.ts:19 | A power of a base at least 1 is at least 1, and above 1 for a base above 1 and a positive exponent. |
| Price.Round2 | src/core/domain/rules/price.ts:23 | `Math.round(x·100)/100` is whole cents within half a cent of `x`. |
| Price.Round4 | src/core/application/services/LoanService.ts:94 | The result has four decimal places, a whole number of ten-thousandths. It stays within half a unit of the fourth place and keeps the sign of a non-negative input. |
| Price.Round4OfWholeTenThousandths | src/core/application/services/LoanService.ts:94 | A rate already at four decimal places is left unchanged by rounding. |
| Price.Round4Idempotent | src/core/application/services/LoanService.ts:94 | Rounding to four places twice gives the same as rounding once. |

## Left out

- Floating point: amounts are exact reals. IEEE rounding, and the tests that compare float products exactly, are not modelled.
- `convertCdiToMonthly` (`LoanService.ts:183-186`): a fractional power has no counterpart over the reals. The CDI gateway and this conversion are together one parameter: the monthly rate, or the gateway's failure.
- Gateways: the CEP and CDI gateways, with their HTTP calls and timeouts, are parameters. A gateway failure arrives as a `Result` failure carrying its message.
- Prisma: the repositories' queries, `include` joins and error logging are not modelled. The stores are maps; ids and timestamps are parameters; joined records are only what the stored value already carries.
- Order by timestamp: `findByApplicantId` orders by `createdAt` descending. The model walks the creation order from newest to oldest and proves it is by `createdAt` descending under a clock that does not go back. Contracts with equal timestamps come out newest-created first; the database leaves their order open.
- Text lengths: a `string` is a sequence of code points, while JavaScript's `.length` counts UTF-16 code units. The name-length check (`ApplicantService.ts:117`) and the state-length check (`Address.ts:31`) therefore differ from the source on characters outside the Basic Multilingual Plane, each of which JavaScript counts twice.
- async/await: every call is sequential.
- `contratar`'s second lookup of the applicant (`LoanService.ts:117-120`) cannot fail after `simular` has found them, in a sequential model. It is not a separate branch.
- Locale formatting: `formatCurrency`, `formatPercentage`, `formatRenda`, `formatTaxa`, `getFormattedValue` and the date rendering of `formatDate` go through `Intl` or `toFixed`. `formatTaxa` and the date renderer are function parameters.
- LoanMapper.FormatDate: only the missing-date branch is the mapper's own. Date parsing and the "Data inválida" branches are inside the renderer parameter.
- `createErrorResponse`'s timestamp is not modelled.
- OfferEntity.GetParcelasText: requires a non-empty term list. Every `Offer` has one, because construction validates it; on an empty list the source would print `undefined` twice.
- `AddressService.validateAddressData` is private and never called.
- `findAll` in the services and repositories is a plain pass-through and is not modelled.
- Classification of the services' messages is proved for a sample of messages (`HttpErrors.NotFoundApplicant` to `HttpErrors.UnclassifiedValor`). For every other message, the general contract of `HttpErrors.MapErrorToHttpStatus` applies.
- Zod DTO schemas, routes, React pages, the service container, environment parsing and logging are not part of this model.
