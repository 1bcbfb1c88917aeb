/**
 * Field cleaners of the customer form: name, CPF (the Brazilian taxpayer
 * number with its two modulo-11 check digits), e-mail uniqueness, mobile
 * number with its DDD (area code), CEP (postal code) and house number.
 * Each cleaner returns the cleaned value or raises a validation error.
 */
module CustomerForm {
  import opened Outcomes
  import opened Text

  /** A primary key; Django numbers rows from 1, so a saved instance's pk is truthy. */
  type Pk = n: nat | n > 0 witness 1

  /** Python truthiness of an optional text field: None and "" are falsy. */
  predicate Given(x: Option<string>) { x.Some? && x.value != "" }

  const NameRequired := "Nome é obrigatório"
  const NameTooShort := "Nome muito curto"
  const CpfWrongLength := "CPF deve ter 11 dígitos"
  const CpfInvalid := "CPF inválido"
  const EmailTaken := "E-mail já existe"
  const MobileInvalid := "Celular inválido"
  const AreaCodeInvalid := "DDD inválido"
  const ZipInvalid := "CEP inválido"
  const NumberInvalid := "Número inválido"
  const NumberTooLarge := "Número muito grande"

  // ---------------------------------------------------------------- name

  function CleanName(name: Option<string>): (r: Result<string>)
    ensures !Given(name) ==> r == Invalid(NameRequired)
    ensures Given(name) && |Strip(name.value)| < 2 ==> r == Invalid(NameTooShort)
    ensures r.Ok? <==> Given(name) && |Strip(name.value)| >= 2
    ensures r.Ok? ==> r.value == Strip(name.value)
    ensures r.Ok? ==> |r.value| >= 2 && !IsSpace(r.value[0]) && !IsSpace(r.value[|r.value| - 1])
  {
    if !Given(name) then Invalid(NameRequired)
    else if |Strip(name.value)| < 2 then Invalid(NameTooShort)
    else Ok(Strip(name.value))
  }

  // ---------------------------------------------------------------- CPF

  /** `sum(int(d) * w for d, w in zip(digits, weights))` with weights w, w-1, w-2, ... */
  function WeightedSum(digits: string, w: int): int
    requires AllDigits(digits)
  {
    if digits == [] then 0 else DigitValue(digits[0]) * w + WeightedSum(digits[1..], w - 1)
  }

  /** `calculate_digit`: 0 when the remainder mod 11 is below 2, otherwise 11 minus it. */
  function CalculateDigit(digits: string, w: int): (d: nat)
    requires AllDigits(digits)
    ensures d <= 9
    ensures d == 0 <==> WeightedSum(digits, w) % 11 < 2
    ensures d != 0 ==> (WeightedSum(digits, w) + d) % 11 == 0
  {
    var remainder := WeightedSum(digits, w) % 11;
    if remainder < 2 then 0 else 11 - remainder
  }

  /** The two CPF check digits of an 11-digit string match its first nine and ten digits. */
  predicate CheckDigitsMatch(cpf: string)
    requires |cpf| == 11 && AllDigits(cpf)
  {
    && DigitValue(cpf[9]) == CalculateDigit(cpf[..9], 10)
    && DigitValue(cpf[10]) == CalculateDigit(cpf[..10], 11)
  }

  /** All characters equal the first one: `cpf == cpf[0] * 11` for an 11-character string. */
  predicate AllSame(s: string) { forall i :: 0 <= i < |s| ==> s[i] == s[0] }

  /** A well-formed CPF: eleven ASCII digits, not all the same, with matching check digits. */
  predicate IsCpf(cpf: string)
  {
    |cpf| == 11 && AllDigits(cpf) && !AllSame(cpf) && CheckDigitsMatch(cpf)
  }

  /**
   * `_validate_cpf_algorithm` on any string: a missing position (IndexError) or a
   * non-digit among the first eleven characters (ValueError) yields false, and
   * characters past the eleventh are never looked at.
   */
  function ValidateCpfAlgorithm(cpf: string): (ok: bool)
    ensures ok ==> |cpf| >= 11 && AllDigits(cpf[..11])
    ensures |cpf| == 11 && AllDigits(cpf) ==> (ok <==> CheckDigitsMatch(cpf))
  {
    if |cpf| < 11 || !AllDigits(cpf[..11]) then false
    else
      var d := cpf[..11];
      assert d[..9] == cpf[..9] && d[..10] == cpf[..10];
      DigitValue(cpf[9]) == CalculateDigit(cpf[..9], 10) && DigitValue(cpf[10]) == CalculateDigit(cpf[..10], 11)
  }

  function CleanCpf(cpf: Option<string>): (r: Result<Option<string>>)
    ensures !Given(cpf) ==> r == Ok(cpf)
    ensures Given(cpf) && |KeepDigits(cpf.value)| != 11 ==> r == Invalid(CpfWrongLength)
    ensures Given(cpf) && |KeepDigits(cpf.value)| == 11 && !IsCpf(KeepDigits(cpf.value)) ==> r == Invalid(CpfInvalid)
    ensures Given(cpf) && IsCpf(KeepDigits(cpf.value)) ==> r == Ok(Some(KeepDigits(cpf.value)))
  {
    if !Given(cpf) then Ok(cpf)
    else
      var digits := KeepDigits(cpf.value);
      if |digits| != 11 then Invalid(CpfWrongLength)
      else if digits == Repeat(digits[0], 11) then Invalid(CpfInvalid)
      else if !ValidateCpfAlgorithm(digits) then Invalid(CpfInvalid)
      else Ok(Some(digits))
  }

  /** `c * n` for a one-character string. */
  function Repeat(c: char, n: nat): (s: string)
    ensures |s| == n && forall i :: 0 <= i < n ==> s[i] == c
  {
    if n == 0 then [] else [c] + Repeat(c, n - 1)
  }

  // ---------------------------------------------------------------- e-mail

  /**
   * `clean_email`: a non-empty address held by another stored customer is refused.
   * `emails` maps the pk of every stored customer that has an e-mail to that e-mail;
   * `instancePk` is the pk of the customer being edited (None when creating).
   */
  function CleanEmail(email: Option<string>, instancePk: Option<Pk>, emails: map<Pk, string>): (r: Result<Option<string>>)
    ensures r.Ok? ==> r.value == email
    ensures r.Invalid? ==> r.message == EmailTaken
    ensures r.Ok? <==> !Given(email) || forall k :: k in emails && emails[k] == email.value ==> instancePk == Some(k)
  {
    if !Given(email) then Ok(email)
    else if instancePk.Some? then
      if exists k :: k in emails && k != instancePk.value && emails[k] == email.value then Invalid(EmailTaken) else Ok(email)
    else
      if exists k :: k in emails && emails[k] == email.value then Invalid(EmailTaken) else Ok(email)
  }

  // ---------------------------------------------------------------- mobile

  const AreaCodes: seq<string> := [
    "11", "12", "13", "14", "15", "16", "17", "18", "19", "21", "22", "24", "27", "28",
    "31", "32", "33", "34", "35", "37", "38", "41", "42", "43", "44", "45", "46", "47",
    "48", "49", "51", "53", "54", "55", "61", "62", "63", "64", "65", "66", "67", "68",
    "69", "71", "73", "74", "75", "77", "79", "81", "82", "83", "84", "85", "86", "87",
    "88", "89", "91", "92", "93", "94", "95", "96", "97", "98", "99"]

  /** `any(s.startswith(code) for code in codes)`. */
  predicate StartsWithAny(s: string, codes: seq<string>)
  {
    codes != [] && ((|codes[0]| <= |s| && s[..|codes[0]|] == codes[0]) || StartsWithAny(s, codes[1..]))
  }

  lemma {:induction false} StartsWithAnyMeans(s: string, codes: seq<string>)
    ensures StartsWithAny(s, codes) <==> exists i :: 0 <= i < |codes| && |codes[i]| <= |s| && s[..|codes[i]|] == codes[i]
  {
    if codes != [] {
      StartsWithAnyMeans(s, codes[1..]);
      if exists i :: 0 <= i < |codes| && |codes[i]| <= |s| && s[..|codes[i]|] == codes[i] {
        var i :| 0 <= i < |codes| && |codes[i]| <= |s| && s[..|codes[i]|] == codes[i];
        if i > 0 { assert codes[1..][i - 1] == codes[i]; }
      }
      if StartsWithAny(s, codes[1..]) {
        var i :| 0 <= i < |codes[1..]| && |codes[1..][i]| <= |s| && s[..|codes[1..][i]|] == codes[1..][i];
        assert codes[i + 1] == codes[1..][i];
      }
    }
  }

  function CleanMobile(mobile: Option<string>): (r: Result<Option<string>>)
    ensures !Given(mobile) ==> r == Ok(mobile)
    ensures Given(mobile) ==> var d := KeepDigits(mobile.value);
      && (|d| != 10 && |d| != 11 ==> r == Invalid(MobileInvalid))
      && (|d| == 10 ==> r == Ok(Some(d)))
      && (|d| == 11 ==> r == if StartsWithAny(d, AreaCodes) then Ok(Some(d)) else Invalid(AreaCodeInvalid))
  {
    if !Given(mobile) then Ok(mobile)
    else
      var digits := KeepDigits(mobile.value);
      if |digits| != 10 && |digits| != 11 then Invalid(MobileInvalid)
      else if |digits| == 11 && !StartsWithAny(digits, AreaCodes) then Invalid(AreaCodeInvalid)
      else Ok(Some(digits))
  }

  // ---------------------------------------------------------------- CEP and number

  function CleanZipCode(zipCode: Option<string>): (r: Result<Option<string>>)
    ensures r.Ok? <==> !Given(zipCode) || |KeepDigits(zipCode.value)| == 8
    ensures !Given(zipCode) ==> r == Ok(zipCode)
    ensures Given(zipCode) && r.Ok? ==>
      r.value.Some? && r.value.value == KeepDigits(zipCode.value) && |r.value.value| == 8 && AllDigits(r.value.value)
    ensures r.Invalid? ==> r.message == ZipInvalid
  {
    if !Given(zipCode) then Ok(zipCode)
    else
      var digits := KeepDigits(zipCode.value);
      if |digits| != 8 then Invalid(ZipInvalid) else Ok(Some(digits))
  }

  function CleanNumber(number: Option<int>): (r: Result<Option<int>>)
    ensures r.Ok? <==> number.None? || 1 <= number.value <= 99999
    ensures r.Ok? ==> r.value == number
    ensures number.Some? && number.value < 1 ==> r == Invalid(NumberInvalid)
    ensures number.Some? && number.value > 99999 ==> r == Invalid(NumberTooLarge)
  {
    if number.None? then Ok(number)
    else if number.value < 1 then Invalid(NumberInvalid)
    else if number.value > 99999 then Invalid(NumberTooLarge)
    else Ok(number)
  }
}
