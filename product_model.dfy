/**
 * Validation in the Product model. `Clean` checks description, price, stock
 * and supplier in that order and raises the first failure keyed by its field;
 * it only returns a verdict, so the product it reads is never changed.
 * Prices are whole cents.
 */
module ProductModel {
  import opened Outcomes
  import opened Text
  import ProductForm

  datatype Product = Product(description: string, price: Option<int>, qtyStock: Option<int>, supplierId: Option<int>)

  const DescriptionRequired := "A descrição é obrigatória."
  const DescriptionTooShort := "A descrição deve ter pelo menos 3 caracteres."
  const DescriptionTooLong := "A descrição ultrapassa o limite de 100 caracteres."
  const PriceRequired := "O preço é obrigatório."
  const PriceNotPositive := "O preço deve ser maior que zero."
  const QtyRequired := "A quantidade em estoque é obrigatória."
  const QtyNegative := "A quantidade não pode ser negativa."
  const QtyTooHigh := "A quantidade é muito alta."
  const SupplierMissing := "Selecione um fornecedor válido."
  const PriceNotPositiveShort := "O preço deve ser maior que zero."
  const StockNegative := "Estoque não pode ser negativo."

  /** `re.sub(r'\s+', ' ', desc.strip())`: the model strips first, then collapses. */
  function StripThenCollapse(desc: string): (r: string)
    ensures r == ProductForm.NormalizeDescription(desc)
  {
    StripCollapseCommute(desc);
    Collapse(Strip(desc))
  }

  /** The outcome of the description block alone. */
  function DescriptionCheck(desc: string): (r: Check)
    ensures r.Pass? <==> desc != "" && 3 <= |ProductForm.NormalizeDescription(desc)| <= 100
    ensures r.Fail? ==> r.field == "description"
    ensures desc == "" ==> r == Fail("description", DescriptionRequired)
    ensures desc != "" && |ProductForm.NormalizeDescription(desc)| < 3 ==> r == Fail("description", DescriptionTooShort)
    ensures desc != "" && |ProductForm.NormalizeDescription(desc)| > 100 ==> r == Fail("description", DescriptionTooLong)
  {
    if desc != "" then
      var d := StripThenCollapse(desc);
      if |d| < 3 then Fail("description", DescriptionTooShort)
      else if |d| > 100 then Fail("description", DescriptionTooLong)
      else Pass
    else Fail("description", DescriptionRequired)
  }

  predicate PriceOk(p: Product) { p.price.Some? && p.price.value > 0 }
  predicate QtyOk(p: Product) { p.qtyStock.Some? && 0 <= p.qtyStock.value <= 99999 }
  /** `if not self.supplier_id`: a missing id and id 0 are both refused. */
  predicate SupplierOk(p: Product) { p.supplierId.Some? && p.supplierId.value != 0 }

  function Clean(p: Product): (r: Check)
    ensures r.Pass? <==> DescriptionCheck(p.description).Pass? && PriceOk(p) && QtyOk(p) && SupplierOk(p)
    ensures DescriptionCheck(p.description).Fail? ==> r == DescriptionCheck(p.description)
    ensures r.Fail? && r.field == "price" <==> DescriptionCheck(p.description).Pass? && !PriceOk(p)
    ensures r.Fail? && r.field == "qty_stock" <==> DescriptionCheck(p.description).Pass? && PriceOk(p) && !QtyOk(p)
    ensures r.Fail? && r.field == "supplier" <==>
      DescriptionCheck(p.description).Pass? && PriceOk(p) && QtyOk(p) && !SupplierOk(p)
    ensures DescriptionCheck(p.description).Pass? && p.price.None? ==> r == Fail("price", PriceRequired)
    ensures DescriptionCheck(p.description).Pass? && p.price.Some? && p.price.value <= 0 ==>
      r == Fail("price", PriceNotPositive)
    ensures DescriptionCheck(p.description).Pass? && PriceOk(p) && p.qtyStock.None? ==>
      r == Fail("qty_stock", QtyRequired)
    ensures DescriptionCheck(p.description).Pass? && PriceOk(p) && p.qtyStock.Some? && p.qtyStock.value < 0 ==>
      r == Fail("qty_stock", QtyNegative)
    ensures DescriptionCheck(p.description).Pass? && PriceOk(p) && p.qtyStock.Some? && p.qtyStock.value > 99999 ==>
      r == Fail("qty_stock", QtyTooHigh)
    ensures DescriptionCheck(p.description).Pass? && PriceOk(p) && QtyOk(p) && !SupplierOk(p) ==>
      r == Fail("supplier", SupplierMissing)
  {
    var description := DescriptionCheck(p.description);
    if description.Fail? then description
    else if p.price.None? then Fail("price", PriceRequired)
    else if p.price.value <= 0 then Fail("price", PriceNotPositive)
    else if p.qtyStock.None? then Fail("qty_stock", QtyRequired)
    else if p.qtyStock.value < 0 then Fail("qty_stock", QtyNegative)
    else if p.qtyStock.value > 99999 then Fail("qty_stock", QtyTooHigh)
    else if p.supplierId.None? || p.supplierId.value == 0 then Fail("supplier", SupplierMissing)
    else Pass
  }

  /** `Product.clean_price` on a present price: refuses a price that is not positive. */
  function CleanPrice(price: int): (r: Result<int>)
    ensures r.Ok? <==> price > 0
    ensures r.Ok? ==> r.value == price
    ensures r.Invalid? ==> r.message == PriceNotPositiveShort
  {
    if price <= 0 then Invalid(PriceNotPositiveShort) else Ok(price)
  }

  /** `Product.clean_qty_stock` on a present quantity: only negatives are refused (no upper bound here). */
  function CleanQtyStock(qty: int): (r: Result<int>)
    ensures r.Ok? <==> qty >= 0
    ensures r.Ok? ==> r.value == qty
    ensures r.Invalid? ==> r.message == StockNegative
  {
    if qty < 0 then Invalid(StockNegative) else Ok(qty)
  }

  /** The form and the model accept exactly the same present prices. */
  lemma PriceRulesAgree(price: int)
    ensures ProductForm.CleanPrice(Some(price)).Ok? <==> CleanPrice(price).Ok?
    ensures CleanPrice(price).Ok? ==> ProductForm.CleanPrice(Some(price)).value == CleanPrice(price).value
  {
  }

  /** Every quantity the form accepts passes the model's own stock check; 100000 shows the converse fails. */
  lemma QtyRulesNest(qty: int)
    ensures ProductForm.CleanQtyStock(Some(qty)).Ok? ==> CleanQtyStock(qty).Ok?
    ensures qty == 100000 ==> CleanQtyStock(qty).Ok? && ProductForm.CleanQtyStock(Some(qty)).Invalid?
  {
  }

  /** A description the form accepted passes the model's description block iff it has at most 100 characters. */
  lemma CleanedDescriptionCheck(desc: string)
    requires ProductForm.CleanDescription(desc).Ok?
    ensures var d := ProductForm.CleanDescription(desc).value; DescriptionCheck(d).Pass? <==> |d| <= 100
  {
    var d := ProductForm.CleanDescription(desc).value;
    assert d == ProductForm.NormalizeDescription(desc) && |d| >= 3;
    ProductForm.NormalizeIdempotent(desc);
    assert ProductForm.NormalizeDescription(d) == d;
    assert d != "";
  }

  /** What the product form accepts passes the model's `clean()` when the description fits in 100 characters. */
  lemma FormOutputPassesModel(desc: string, price: Option<int>, qty: Option<int>, supplier: Option<nat>)
    requires ProductForm.CleanDescription(desc).Ok? && ProductForm.CleanPrice(price).Ok?
    requires ProductForm.CleanQtyStock(qty).Ok? && ProductForm.CleanSupplier(supplier).Ok?
    requires supplier != Some(0)
    ensures var d := ProductForm.CleanDescription(desc).value;
      Clean(Product(d, price, qty, supplier)).Pass? <==> |d| <= 100
  {
    CleanedDescriptionCheck(desc);
    var d := ProductForm.CleanDescription(desc).value;
    var p := Product(d, price, qty, supplier);
    assert PriceOk(p) && QtyOk(p) && SupplierOk(p);
  }
}
