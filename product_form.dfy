/**
 * Field cleaners of the product form. The description is normalised by
 * collapsing every whitespace run to one space and stripping the ends; prices
 * are decimals with two places, modelled as whole cents.
 */
module ProductForm {
  import opened Outcomes
  import opened Text

  const DescriptionTooShort := "Descrição muito curta"
  const PriceRequired := "Preço é obrigatório"
  const PriceNotPositive := "Preço deve ser maior que zero"
  const QtyRequired := "Quantidade é obrigatória"
  const QtyNegative := "Quantidade não pode ser negativa"
  const QtyTooHigh := "Quantidade muito alta"
  const SupplierInvalid := "Fornecedor inválido"

  /** A normalised description: no whitespace at either end, and only single plain spaces inside. */
  predicate Normalised(s: string)
  {
    (s == [] || (!IsSpace(s[0]) && !IsSpace(s[|s| - 1]))) && SingleSpaced(s)
  }

  /**
   * `re.sub(r'\s+', ' ', desc).strip()`: the result is normalised and keeps
   * every visible character of `desc`, in order.
   */
  function NormalizeDescription(desc: string): (r: string)
    ensures Normalised(r)
    ensures |r| <= |desc|
    ensures NonSpace(r) == NonSpace(desc)
  {
    StripOfCollapseNormalised(desc);
    CollapseKeepsNonSpace(desc);
    StripKeepsNonSpace(Collapse(desc));
    Strip(Collapse(desc))
  }

  lemma StripOfCollapseNormalised(desc: string)
    ensures Normalised(Strip(Collapse(desc)))
  {
    var collapsed := Collapse(desc);
    CollapseSingleSpaced(desc);
    StripSingleSpaced(collapsed);
  }

  /** A normalised string is left alone by the normalisation. */
  lemma NormalisedIsFixedPoint(s: string)
    requires Normalised(s)
    ensures NormalizeDescription(s) == s
  {
    CollapseOfSingleSpaced(s);
    StripOfStripped(s);
  }

  /** Normalising twice is normalising once. */
  lemma NormalizeIdempotent(desc: string)
    ensures NormalizeDescription(NormalizeDescription(desc)) == NormalizeDescription(desc)
  {
    NormalisedIsFixedPoint(NormalizeDescription(desc));
  }

  function CleanDescription(desc: string): (r: Result<string>)
    ensures r.Ok? <==> |NormalizeDescription(desc)| >= 3
    ensures r.Invalid? ==> r.message == DescriptionTooShort
    ensures r.Ok? ==> r.value == NormalizeDescription(desc) && Normalised(r.value) && |r.value| >= 3
  {
    var clean := NormalizeDescription(desc);
    if |clean| < 3 then Invalid(DescriptionTooShort) else Ok(clean)
  }

  /** Cleaning an accepted description again returns it unchanged. */
  lemma CleanDescriptionIdempotent(desc: string)
    requires CleanDescription(desc).Ok?
    ensures CleanDescription(CleanDescription(desc).value) == CleanDescription(desc)
  {
    NormalizeIdempotent(desc);
  }

  /** `clean_price`: required and strictly positive; `round(price, 2)` is the identity on cents. */
  function CleanPrice(price: Option<int>): (r: Result<int>)
    ensures price.None? ==> r == Invalid(PriceRequired)
    ensures price.Some? && price.value <= 0 ==> r == Invalid(PriceNotPositive)
    ensures r.Ok? <==> price.Some? && price.value > 0
    ensures r.Ok? ==> price == Some(r.value)
  {
    if price.None? then Invalid(PriceRequired)
    else if price.value <= 0 then Invalid(PriceNotPositive)
    else Ok(price.value)
  }

  /** `clean_qty_stock`: required, then within 0..99999, returned unchanged. */
  function CleanQtyStock(qty: Option<int>): (r: Result<int>)
    ensures qty.None? ==> r == Invalid(QtyRequired)
    ensures qty.Some? && qty.value < 0 ==> r == Invalid(QtyNegative)
    ensures qty.Some? && qty.value > 99999 ==> r == Invalid(QtyTooHigh)
    ensures r.Ok? <==> qty.Some? && 0 <= qty.value <= 99999
    ensures r.Ok? ==> qty == Some(r.value)
  {
    if qty.None? then Invalid(QtyRequired)
    else if qty.value < 0 then Invalid(QtyNegative)
    else if qty.value > 99999 then Invalid(QtyTooHigh)
    else Ok(qty.value)
  }

  /** `clean_supplier`: the chosen supplier (its id) is required. */
  function CleanSupplier(supplier: Option<nat>): (r: Result<nat>)
    ensures r.Ok? <==> supplier.Some?
    ensures r.Ok? ==> r.value == supplier.value
    ensures r.Invalid? ==> r.message == SupplierInvalid
  {
    if supplier.None? then Invalid(SupplierInvalid) else Ok(supplier.value)
  }
}
