/**
 * Validation in the Customer model: boolean format checks for CPF, mobile and
 * CEP, and `clean()`, which checks name, CPF, mobile and CEP in that order and
 * raises the first failure keyed by its field.
 */
module CustomerModel {
  import opened Outcomes
  import opened Text
  import CustomerForm

  /** The fields of a customer that `clean()` reads. */
  datatype Customer = Customer(name: string, cpf: Option<string>, mobile: Option<string>, zipCode: Option<string>)

  const NameTooShort := "Nome deve ter pelo menos 2 caracteres"
  const CpfBadFormat := "Formato de CPF inválido"
  const MobileBadFormat := "Formato de celular inválido"
  const ZipBadFormat := "Formato de CEP inválido"

  /**
   * The DDD list of `_validate_mobile`. The model keeps its own copy of the
   * form's list, as customers/models.py:93 does; `AreaCodesAgree` shows the
   * two copies are equal.
   */
  const AreaCodes: seq<string> := [
    "11", "12", "13", "14", "15", "16", "17", "18", "19", "21", "22", "24", "27", "28",
    "31", "32", "33", "34", "35", "37", "38", "41", "42", "43", "44", "45", "46", "47",
    "48", "49", "51", "53", "54", "55", "61", "62", "63", "64", "65", "66", "67", "68",
    "69", "71", "73", "74", "75", "77", "79", "81", "82", "83", "84", "85", "86", "87",
    "88", "89", "91", "92", "93", "94", "95", "96", "97", "98", "99"]

  /** The model's list of DDDs is the form's list. */
  lemma AreaCodesAgree()
    ensures AreaCodes == CustomerForm.AreaCodes
  {
  }

  /** `_validate_cpf`: strips non-digits and never raises; malformed input is simply false. */
  function ValidateCpf(cpf: string): (ok: bool)
    ensures ok <==> CustomerForm.IsCpf(KeepDigits(cpf))
  {
    var digits := KeepDigits(cpf);
    if |digits| != 11 then false
    else if digits == CustomerForm.Repeat(digits[0], 11) then false
    else
      && DigitValue(digits[9]) == CustomerForm.CalculateDigit(digits[..9], 10)
      && DigitValue(digits[10]) == CustomerForm.CalculateDigit(digits[..10], 11)
  }

  /** `_validate_mobile`: 10 or 11 digits, and a known DDD in front when there are 11. */
  function ValidateMobile(mobile: string): (ok: bool)
    ensures ok <==> var d := KeepDigits(mobile);
      (|d| == 10 || |d| == 11) && (|d| == 11 ==> CustomerForm.StartsWithAny(d, AreaCodes))
  {
    var digits := KeepDigits(mobile);
    if |digits| != 10 && |digits| != 11 then false
    else if |digits| == 11 && !CustomerForm.StartsWithAny(digits, AreaCodes) then false
    else true
  }

  /** `_validate_zip_code`: exactly eight digits once the rest is stripped. */
  function ValidateZipCode(zipCode: string): (ok: bool)
    ensures ok <==> |KeepDigits(zipCode)| == 8
  {
    var digits := KeepDigits(zipCode);
    if |digits| != 8 then false else true
  }

  /** Python truthiness of an optional text field. */
  predicate Given(x: Option<string>) { x.Some? && x.value != "" }

  /** The name check fires only for a non-empty name whose stripped length is below 2. */
  predicate NameOk(c: Customer) { !(c.name != "" && |Strip(c.name)| < 2) }
  predicate CpfOk(c: Customer) { Given(c.cpf) ==> ValidateCpf(c.cpf.value) }
  predicate MobileOk(c: Customer) { Given(c.mobile) ==> ValidateMobile(c.mobile.value) }
  predicate ZipOk(c: Customer) { Given(c.zipCode) ==> ValidateZipCode(c.zipCode.value) }

  function Clean(c: Customer): (r: Check)
    ensures r.Pass? <==> NameOk(c) && CpfOk(c) && MobileOk(c) && ZipOk(c)
    ensures r == Fail("name", NameTooShort) <==> !NameOk(c)
    ensures r == Fail("cpf", CpfBadFormat) <==> NameOk(c) && !CpfOk(c)
    ensures r == Fail("mobile", MobileBadFormat) <==> NameOk(c) && CpfOk(c) && !MobileOk(c)
    ensures r == Fail("zip_code", ZipBadFormat) <==> NameOk(c) && CpfOk(c) && MobileOk(c) && !ZipOk(c)
  {
    if c.name != "" && |Strip(c.name)| < 2 then Fail("name", NameTooShort)
    else if Given(c.cpf) && !ValidateCpf(c.cpf.value) then Fail("cpf", CpfBadFormat)
    else if Given(c.mobile) && !ValidateMobile(c.mobile.value) then Fail("mobile", MobileBadFormat)
    else if Given(c.zipCode) && !ValidateZipCode(c.zipCode.value) then Fail("zip_code", ZipBadFormat)
    else Pass
  }

  // ---- agreement with the form's cleaners

  /** For a non-empty value, the model's CPF check passes exactly when the form's cleaner does. */
  lemma CpfAgreesWithForm(s: string)
    requires s != ""
    ensures ValidateCpf(s) <==> CustomerForm.CleanCpf(Some(s)).Ok?
  {
  }

  /** For a non-empty value, the model's mobile check passes exactly when the form's cleaner does. */
  lemma MobileAgreesWithForm(s: string)
    requires s != ""
    ensures ValidateMobile(s) <==> CustomerForm.CleanMobile(Some(s)).Ok?
  {
    AreaCodesAgree();
  }

  /** For a non-empty value, the model's CEP check passes exactly when the form's cleaner does. */
  lemma ZipAgreesWithForm(s: string)
    requires s != ""
    ensures ValidateZipCode(s) <==> CustomerForm.CleanZipCode(Some(s)).Ok?
  {
  }

  /** What the form's cleaners return passes the model's `clean()`. */
  lemma FormOutputPassesModel(name: string, cpf: string, mobile: string, zipCode: string)
    requires CustomerForm.CleanName(Some(name)).Ok?
    requires CustomerForm.CleanCpf(Some(cpf)).Ok?
    requires CustomerForm.CleanMobile(Some(mobile)).Ok?
    requires CustomerForm.CleanZipCode(Some(zipCode)).Ok?
    ensures Clean(Customer(CustomerForm.CleanName(Some(name)).value, CustomerForm.CleanCpf(Some(cpf)).value,
                           CustomerForm.CleanMobile(Some(mobile)).value, CustomerForm.CleanZipCode(Some(zipCode)).value)).Pass?
  {
    NameCleanedPasses(name);
    CpfCleanedPasses(cpf);
    MobileCleanedPasses(mobile);
    ZipCleanedPasses(zipCode);
  }

  lemma NameCleanedPasses(name: string)
    requires CustomerForm.CleanName(Some(name)).Ok?
    ensures var n := CustomerForm.CleanName(Some(name)).value; |Strip(n)| >= 2
  {
    var n := CustomerForm.CleanName(Some(name)).value;
    StripOfStripped(n);
  }

  lemma CpfCleanedPasses(cpf: string)
    requires CustomerForm.CleanCpf(Some(cpf)).Ok?
    ensures var v := CustomerForm.CleanCpf(Some(cpf)).value; Given(v) ==> ValidateCpf(v.value)
  {
    if cpf != "" { KeepDigitsOfDigits(KeepDigits(cpf)); }
  }

  lemma MobileCleanedPasses(mobile: string)
    requires CustomerForm.CleanMobile(Some(mobile)).Ok?
    ensures var v := CustomerForm.CleanMobile(Some(mobile)).value; Given(v) ==> ValidateMobile(v.value)
  {
    AreaCodesAgree();
    if mobile != "" { KeepDigitsOfDigits(KeepDigits(mobile)); }
  }

  lemma ZipCleanedPasses(zipCode: string)
    requires CustomerForm.CleanZipCode(Some(zipCode)).Ok?
    ensures var v := CustomerForm.CleanZipCode(Some(zipCode)).value; Given(v) ==> ValidateZipCode(v.value)
  {
    if zipCode != "" { KeepDigitsOfDigits(KeepDigits(zipCode)); }
  }
}
