/** Properties of the customer form cleaners: the CPF check-digit rule and idempotence. */
module CustomerCpfLemmas {
  import opened Outcomes
  import opened Text
  import opened CustomerForm

  /** The check digit is the usual CPF formulation `(10 * S mod 11) mod 10`. */
  lemma CheckDigitIsTenTimesSumMod(digits: string, w: int)
    requires AllDigits(digits)
    ensures CalculateDigit(digits, w) == (WeightedSum(digits, w) * 10 % 11) % 10
  {
    var s := WeightedSum(digits, w);
    var q, r := s / 11, s % 11;
    assert s == 11 * q + r;
    if r == 0 {
      assert s * 10 == 11 * (10 * q);
    } else {
      assert s * 10 == 11 * (10 * q + r - 1) + (11 - r);
    }
  }

  /** The ASCII digit with a given value. */
  function DigitChar(d: nat): (c: char)
    requires d <= 9
    ensures IsDigit(c) && DigitValue(c) == d
  {
    (('0' as int) + d) as char
  }

  /** Appends the two check digits to nine digits, as a CPF issuer would. */
  function WithCheckDigits(nine: string): (cpf: string)
    requires |nine| == 9 && AllDigits(nine)
    ensures |cpf| == 11 && AllDigits(cpf) && cpf[..9] == nine
  {
    var ten := nine + [DigitChar(CalculateDigit(nine, 10))];
    ten + [DigitChar(CalculateDigit(ten, 11))]
  }

  /** Check digits computed from nine digits always satisfy the validator's rule. */
  lemma WithCheckDigitsPasses(nine: string)
    requires |nine| == 9 && AllDigits(nine)
    ensures CheckDigitsMatch(WithCheckDigits(nine))
    ensures !AllSame(nine) ==> IsCpf(WithCheckDigits(nine))
  {
    var cpf := WithCheckDigits(nine);
    var ten := nine + [DigitChar(CalculateDigit(nine, 10))];
    assert cpf[..10] == ten;
    if !AllSame(nine) {
      var i :| 0 <= i < 9 && nine[i] != nine[0];
      assert cpf[i] != cpf[0];
    }
  }

  /** The first nine digits determine the whole CPF: the check digits admit no alternative. */
  lemma CheckDigitsDetermined(a: string, b: string)
    requires |a| == 11 && AllDigits(a) && CheckDigitsMatch(a)
    requires |b| == 11 && AllDigits(b) && CheckDigitsMatch(b)
    requires a[..9] == b[..9]
    ensures a == b
  {
    assert a[9] == b[9] by { DigitValueInjective(a[9], b[9]); }
    assert a[..10] == b[..10] by { assert a[..10] == a[..9] + [a[9]] && b[..10] == b[..9] + [b[9]]; }
    assert a[10] == b[10] by { DigitValueInjective(a[10], b[10]); }
    assert a == a[..10] + [a[10]] && b == b[..10] + [b[10]];
  }

  lemma DigitValueInjective(c: char, d: char)
    requires IsDigit(c) && IsDigit(d) && DigitValue(c) == DigitValue(d)
    ensures c == d
  {
  }

  /** The weighted sum of a concatenation continues the weights where the first part stops. */
  lemma {:induction false} WeightedSumAppend(a: string, b: string, w: int)
    requires AllDigits(a) && AllDigits(b)
    ensures AllDigits(a + b)
    ensures WeightedSum(a + b, w) == WeightedSum(a, w) + WeightedSum(b, w - |a|)
  {
    if a == [] {
      assert a + b == b;
    } else {
      assert (a + b)[1..] == a[1..] + b;
      WeightedSumAppend(a[1..], b, w - 1);
    }
  }

  lemma WeightedSumOfThree(s: string, w: int)
    requires |s| == 3 && AllDigits(s)
    ensures WeightedSum(s, w) == DigitValue(s[0]) * w + DigitValue(s[1]) * (w - 1) + DigitValue(s[2]) * (w - 2)
  {
    var t := s[1..];
    assert t[0] == s[1];
    var u := t[1..];
    assert u[0] == s[2];
    assert u[1..] == [];
    assert WeightedSum(u, w - 2) == DigitValue(s[2]) * (w - 2);
    assert WeightedSum(t, w - 1) == DigitValue(s[1]) * (w - 1) + WeightedSum(u, w - 2);
  }

  /** The first sum of `_validate_cpf_algorithm`, term by term. */
  lemma FirstCpfSum(s: string)
    requires |s| == 11 && AllDigits(s)
    ensures WeightedSum(s[..9], 10)
         == DigitValue(s[0]) * 10 + DigitValue(s[1]) * 9 + DigitValue(s[2]) * 8
          + DigitValue(s[3]) * 7 + DigitValue(s[4]) * 6 + DigitValue(s[5]) * 5
          + DigitValue(s[6]) * 4 + DigitValue(s[7]) * 3 + DigitValue(s[8]) * 2
  {
    var a, b, c := s[..3], s[3..6], s[6..9];
    assert s[..9] == a + (b + c);
    WeightedSumOfThree(a, 10);
    WeightedSumOfThree(b, 7);
    WeightedSumOfThree(c, 4);
    WeightedSumAppend(b, c, 7);
    WeightedSumAppend(a, b + c, 10);
  }

  /** The second sum of `_validate_cpf_algorithm`, term by term. */
  lemma SecondCpfSum(s: string)
    requires |s| == 11 && AllDigits(s)
    ensures WeightedSum(s[..10], 11)
         == DigitValue(s[0]) * 11 + DigitValue(s[1]) * 10 + DigitValue(s[2]) * 9
          + DigitValue(s[3]) * 8 + DigitValue(s[4]) * 7 + DigitValue(s[5]) * 6
          + DigitValue(s[6]) * 5 + DigitValue(s[7]) * 4 + DigitValue(s[8]) * 3
          + DigitValue(s[9]) * 2
  {
    var a, b, c, d := s[..3], s[3..6], s[6..9], s[9..10];
    assert s[..10] == a + (b + (c + d));
    WeightedSumOfThree(a, 11);
    WeightedSumOfThree(b, 8);
    WeightedSumOfThree(c, 5);
    assert d[1..] == [];
    assert WeightedSum(d, 2) == DigitValue(s[9]) * 2;
    WeightedSumAppend(c, d, 5);
    WeightedSumAppend(b, c + d, 8);
    WeightedSumAppend(a, b + (c + d), 11);
  }

  /** The reference number 529.982.247-25 is a CPF. */
  lemma ReferenceCpfIsValid(s: string)
    requires s == "52998224725"
    ensures IsCpf(s)
  {
    assert !AllSame(s) by { assert s[1] != s[0]; }
    FirstCpfSum(s);
    SecondCpfSum(s);
    assert WeightedSum(s[..9], 10) == 295;
    assert WeightedSum(s[..10], 11) == 347;
  }

  /** The reference number is accepted and returned unchanged. */
  lemma ReferenceCpfAccepted(s: string)
    requires s == "52998224725"
    ensures CleanCpf(Some(s)) == Ok(Some(s))
  {
    ReferenceCpfIsValid(s);
    KeepDigitsOfDigits(s);
  }

  /** Eleven digits whose check digits do not match are refused as 'CPF inválido', whatever their punctuation. */
  lemma MismatchedCheckDigitsRefused(s: string)
    requires Given(Some(s))
    requires |KeepDigits(s)| == 11 && !CheckDigitsMatch(KeepDigits(s))
    ensures CleanCpf(Some(s)) == Invalid(CpfInvalid)
  {
  }

  /** Changing the last digit of the reference number makes it invalid. */
  lemma AlteredLastDigitRefused(s: string)
    requires s == "52998224724"
    ensures CleanCpf(Some(s)) == Invalid(CpfInvalid)
  {
    KeepDigitsOfDigits(s);
    assert !CheckDigitsMatch(s) by {
      SecondCpfSum(s);
      assert WeightedSum(s[..10], 11) == 347;
    }
  }

  /** '12345678900' is refused: its second check digit computes to 9, not 0. */
  lemma SampleCpfOfTestsRefused(s: string)
    requires s == "12345678900"
    ensures CalculateDigit(s[..10], 11) == 9
    ensures CleanCpf(Some(s)) == Invalid(CpfInvalid)
  {
    KeepDigitsOfDigits(s);
    SecondCpfSum(s);
    assert WeightedSum(s[..10], 11) == 255;
  }

  /** Eleven '1's pass the check-digit rule, yet are refused as 'CPF inválido'. */
  lemma RepeatedDigitsRefused(s: string)
    requires s == "11111111111"
    ensures CheckDigitsMatch(s)
    ensures CleanCpf(Some(s)) == Invalid(CpfInvalid)
  {
    FirstCpfSum(s);
    SecondCpfSum(s);
    assert WeightedSum(s[..9], 10) == 54;
    assert WeightedSum(s[..10], 11) == 65;
    KeepDigitsOfDigits(s);
    assert s == Repeat(s[0], 11);
  }

  /** Cleaning the cleaned CPF gives it back unchanged. */
  lemma CleanCpfIdempotent(cpf: Option<string>)
    requires CleanCpf(cpf).Ok?
    ensures CleanCpf(CleanCpf(cpf).value) == CleanCpf(cpf)
  {
    if Given(cpf) {
      var d := KeepDigits(cpf.value);
      KeepDigitsOfDigits(d);
    }
  }

  /** Cleaning the cleaned name gives it back unchanged. */
  lemma CleanNameIdempotent(name: Option<string>)
    requires CleanName(name).Ok?
    ensures CleanName(Some(CleanName(name).value)) == CleanName(name)
  {
    StripOfStripped(Strip(name.value));
  }

  /** Cleaning the cleaned CEP gives it back unchanged. */
  lemma CleanZipCodeIdempotent(zipCode: Option<string>)
    requires CleanZipCode(zipCode).Ok?
    ensures CleanZipCode(CleanZipCode(zipCode).value) == CleanZipCode(zipCode)
  {
    if Given(zipCode) {
      KeepDigitsOfDigits(KeepDigits(zipCode.value));
    }
  }
}
