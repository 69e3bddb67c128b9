/** The Receita Federal modulus-11 CPF check (src/utils/cpfValidator.ts). */
module CpfValidator {
  import opened Strings
  import CpfMask
  import Seqs

  /** The ten all-same-digit numbers the validator rejects outright. */
  const RepeatedDigitCpfs: seq<string> := [
    "00000000000", "11111111111", "22222222222", "33333333333", "44444444444",
    "55555555555", "66666666666", "77777777777", "88888888888", "99999999999"
  ]

  /** Σ_{i < n} digit(d[i]) · (top − i). */
  function WeightedSum(d: string, n: nat, top: int): int
    requires n <= |d| && AllDigits(d)
  {
    if n == 0 then 0 else WeightedSum(d, n - 1, top) + DigitValue(d[n - 1]) * (top - (n - 1))
  }

  /** `11 − (sum mod 11)`, with 10 and 11 mapped to 0. */
  function CheckDigit(sum: int): (r: int)
    requires sum >= 0
    ensures 0 <= r <= 9
    ensures (r + sum) % 11 == 0 || (r == 0 && sum % 11 == 1)
  {
    var rev := 11 - sum % 11;
    if rev == 10 || rev == 11 then 0 else rev
  }

  lemma {:induction false} WeightedSumNonNegative(d: string, n: nat, top: int)
    requires n <= |d| && AllDigits(d) && top >= n
    ensures WeightedSum(d, n, top) >= 0
  {
    if n > 0 {
      WeightedSumNonNegative(d, n - 1, top);
    }
  }

  /** The weighted sum looks at nothing beyond the first `n` digits. */
  lemma {:induction false} WeightedSumPrefix(d: string, e: string, n: nat, top: int)
    requires n <= |d| && n <= |e| && AllDigits(d) && AllDigits(e) && d[..n] == e[..n]
    ensures WeightedSum(d, n, top) == WeightedSum(e, n, top)
  {
    if n > 0 {
      assert d[..n - 1] == d[..n][..n - 1];
      assert e[..n - 1] == e[..n][..n - 1];
      assert d[n - 1] == d[..n][n - 1];
      WeightedSumPrefix(d, e, n - 1, top);
    }
  }

  /** Both check digits of an 11-digit string agree with the digits computed from it. */
  predicate HasValidCheckDigits(d: string)
    requires |d| == 11 && AllDigits(d)
  {
    WeightedSumNonNegativeFacts(d);
    && CheckDigit(WeightedSum(d, 9, 10)) == DigitValue(d[9])
    && CheckDigit(WeightedSum(d, 10, 11)) == DigitValue(d[10])
  }

  lemma WeightedSumNonNegativeFacts(d: string)
    requires |d| == 11 && AllDigits(d)
    ensures WeightedSum(d, 9, 10) >= 0 && WeightedSum(d, 10, 11) >= 0
  {
    WeightedSumNonNegative(d, 9, 10);
    WeightedSumNonNegative(d, 10, 11);
  }

  /** The reference statement of a valid CPF: a non-empty input whose digits number
      exactly eleven, are not one digit repeated, and carry both check digits. */
  function IsValidCpf(cpf: string): (valid: bool)
    ensures valid ==> |cpf| >= 11
    ensures valid ==> !AllSame(CpfMask.CleanCpf(cpf))
  {
    && cpf != ""
    && var d := CpfMask.CleanCpf(cpf);
    && |d| == 11
    && (RepeatedListIsAllSame(d); d !in RepeatedDigitCpfs)
    && HasValidCheckDigits(d)
  }

  /** `validateCPF`, with the source's two summing loops. */
  method ValidateCpf(cpf: string) returns (valid: bool)
    ensures valid <==> IsValidCpf(cpf)
  {
    if cpf == "" {
      return false;
    }
    var clean := CpfMask.CleanCpf(cpf);
    if |clean| != 11 {
      return false;
    }
    if clean in RepeatedDigitCpfs {
      return false;
    }
    WeightedSumNonNegativeFacts(clean);

    var add := 0;
    var i := 0;
    while i < 9
      invariant 0 <= i <= 9
      invariant add == WeightedSum(clean, i, 10)
    {
      add := add + DigitValue(clean[i]) * (10 - i);
      i := i + 1;
    }
    var rev := 11 - add % 11;
    if rev == 10 || rev == 11 {
      rev := 0;
    }
    if rev != DigitValue(clean[9]) {
      return false;
    }

    add := 0;
    i := 0;
    while i < 10
      invariant 0 <= i <= 10
      invariant add == WeightedSum(clean, i, 11)
    {
      add := add + DigitValue(clean[i]) * (11 - i);
      i := i + 1;
    }
    rev := 11 - add % 11;
    if rev == 10 || rev == 11 {
      rev := 0;
    }
    if rev != DigitValue(clean[10]) {
      return false;
    }
    return true;
  }

  /** Only the digits of the input matter, once it is non-empty. */
  lemma OnlyDigitsMatter(cpf: string)
    requires cpf != ""
    ensures IsValidCpf(cpf) <==> IsValidCpf(CpfMask.CleanCpf(cpf))
  {
    DigitsOfDigits(CpfMask.CleanCpf(cpf));
  }

  /** Any input whose digit count is not eleven is rejected. */
  lemma WrongLengthRejected(cpf: string)
    requires |CpfMask.CleanCpf(cpf)| != 11
    ensures !IsValidCpf(cpf)
  {
  }

  /** Σ_{i < n} (top − i): the weight total the repeated digit is multiplied by. */
  function WeightTotal(n: nat, top: int): int {
    if n == 0 then 0 else WeightTotal(n - 1, top) + (top - (n - 1))
  }

  lemma {:induction false} WeightedSumRepeated(d: string, n: nat, top: int)
    requires |d| == 11 && AllDigits(d) && n <= 11
    requires forall i :: 0 <= i < |d| ==> d[i] == d[0]
    ensures WeightedSum(d, n, top) == DigitValue(d[0]) * WeightTotal(n, top)
  {
    if n > 0 {
      WeightedSumRepeated(d, n - 1, top);
      var v := DigitValue(d[0]);
      assert v * WeightTotal(n - 1, top) + v * (top - (n - 1))
          == v * (WeightTotal(n - 1, top) + (top - (n - 1)));
    }
  }

  lemma CheckDigitOfRepeated(v: int)
    requires 0 <= v <= 9
    ensures CheckDigit(v * 54) == v && CheckDigit(v * 65) == v
  {
    if v == 0 {} else if v == 1 {} else if v == 2 {} else if v == 3 {} else if v == 4 {}
    else if v == 5 {} else if v == 6 {} else if v == 7 {} else if v == 8 {} else {}
  }

  /** One digit repeated throughout. */
  predicate AllSame(d: string) {
    forall i :: 0 <= i < |d| ==> d[i] == d[0]
  }

  lemma RepeatedEntryAllSame(k: int)
    requires 0 <= k < |RepeatedDigitCpfs|
    ensures |RepeatedDigitCpfs[k]| == 11 && AllSame(RepeatedDigitCpfs[k])
    ensures DigitValue(RepeatedDigitCpfs[k][0]) == k
  {
    if k == 0 {} else if k == 1 {} else if k == 2 {} else if k == 3 {} else if k == 4 {}
    else if k == 5 {} else if k == 6 {} else if k == 7 {} else if k == 8 {} else {}
  }

  /** The rejection list is exactly the eleven-digit strings made of one repeated digit. */
  lemma RepeatedListIsAllSame(d: string)
    requires |d| == 11 && AllDigits(d)
    ensures d in RepeatedDigitCpfs <==> AllSame(d)
  {
    if d in RepeatedDigitCpfs {
      var k :| 0 <= k < |RepeatedDigitCpfs| && RepeatedDigitCpfs[k] == d;
      RepeatedEntryAllSame(k);
    }
    if AllSame(d) {
      var v := DigitValue(d[0]);
      RepeatedEntryAllSame(v);
      assert d == RepeatedDigitCpfs[v];
    }
  }

  /** The all-same-digit numbers would pass the check-digit test: it is the explicit
      repeated-digit list that rejects them. */
  lemma RepeatedDigitsPassChecksumButAreRejected(d: string)
    requires |d| == 11 && AllDigits(d) && AllSame(d)
    ensures HasValidCheckDigits(d)
    ensures !IsValidCpf(d)
  {
    var v := DigitValue(d[0]);
    WeightedSumRepeated(d, 9, 10);
    WeightedSumRepeated(d, 10, 11);
    assert WeightTotal(9, 10) == 54;
    assert WeightTotal(10, 11) == 65;
    CheckDigitOfRepeated(v);
    RepeatedListIsAllSame(d);
    DigitsOfDigits(d);
  }

  /** The check digits are determined by the first nine: two valid numbers that share
      them are the same number. */
  lemma CheckDigitsDetermined(d: string, e: string)
    requires |d| == 11 && AllDigits(d) && HasValidCheckDigits(d)
    requires |e| == 11 && AllDigits(e) && HasValidCheckDigits(e)
    requires d[..9] == e[..9]
    ensures d == e
  {
    WeightedSumPrefix(d, e, 9, 10);
    assert d[9] == e[9];
    assert d[..10] == d[..9] + [d[9]] && e[..10] == e[..9] + [e[9]];
    WeightedSumPrefix(d, e, 10, 11);
    assert d[10] == e[10];
    assert d == d[..9] + [d[9]] + [d[10]];
    assert e == e[..9] + [e[9]] + [e[10]];
  }

  lemma ExampleCheckDigits()
    ensures AllDigits("52998224725")
    ensures HasValidCheckDigits("52998224725")
  {
    var d := "52998224725";
    assert WeightedSum(d, 1, 10) == 50;
    assert WeightedSum(d, 2, 10) == 68;
    assert WeightedSum(d, 3, 10) == 140;
    assert WeightedSum(d, 4, 10) == 203;
    assert WeightedSum(d, 5, 10) == 251;
    assert WeightedSum(d, 6, 10) == 261;
    assert WeightedSum(d, 7, 10) == 269;
    assert WeightedSum(d, 8, 10) == 281;
    assert WeightedSum(d, 9, 10) == 295;
    assert WeightedSum(d, 1, 11) == 55;
    assert WeightedSum(d, 2, 11) == 75;
    assert WeightedSum(d, 3, 11) == 156;
    assert WeightedSum(d, 4, 11) == 228;
    assert WeightedSum(d, 5, 11) == 284;
    assert WeightedSum(d, 6, 11) == 296;
    assert WeightedSum(d, 7, 11) == 306;
    assert WeightedSum(d, 8, 11) == 322;
    assert WeightedSum(d, 9, 11) == 343;
    assert WeightedSum(d, 10, 11) == 347;
  }

  /** Eleven digits, not all the same, that carry their check digits form a valid CPF. */
  lemma ValidDigitString(d: string)
    requires |d| == 11 && AllDigits(d) && !AllSame(d) && HasValidCheckDigits(d)
    ensures IsValidCpf(d)
  {
    DigitsOfDigits(d);
    RepeatedListIsAllSame(d);
  }

  /** A well-known valid number. */
  lemma ExampleIsValid()
    ensures IsValidCpf("52998224725")
  {
    var d := "52998224725";
    ExampleCheckDigits();
    assert !AllSame(d) by {
      assert d[1] != d[0];
    }
    ValidDigitString(d);
  }

  /** ... and the same number masked. */
  lemma ExampleMaskedIsValid()
    ensures IsValidCpf("529.982.247-25")
  {
    var d := "52998224725";
    ExampleIsValid();
    ExampleCheckDigits();
    DigitsOfDigits(d);
    FormatPreservesValidity(d);
    CpfMask.FormatCpfExample();
  }

  /** Masking an input with at most eleven digits does not change whether it is valid. */
  lemma FormatPreservesValidity(cpf: string)
    requires cpf != "" && |CpfMask.CleanCpf(cpf)| <= 11
    ensures IsValidCpf(CpfMask.FormatCpf(cpf)) <==> IsValidCpf(cpf)
  {
    CpfMask.FormatCpfRoundTrip(cpf);
    var d := CpfMask.CleanCpf(cpf);
    assert CpfMask.CleanCpf(CpfMask.FormatCpf(cpf)) == d;
    if d == "" {
      assert !IsValidCpf(cpf);
    }
  }
}
