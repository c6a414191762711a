/**
 * Invoice line items (billing-backend `InvoiceItemController`).
 *
 * A line item stores three inputs (quantity, unit price, tax percentage) and
 * three amounts derived from them: the line total, the tax amount and the
 * total with tax. `store` computes the amounts once; `update` merges the
 * supplied inputs with the stored ones and recomputes all three amounts
 * whenever any input is supplied. Money is exact (`real`); the decimal(10,2)
 * rounding done by the database is not part of this model.
 */
module InvoiceItems {
  import opened Text

  /** The stored columns of an invoice line item. */
  datatype Item = Item(
    invoiceId: int,
    description: string,
    quantity: int,
    unitPrice: real,
    taxPercentage: real,
    total: real,
    taxAmount: real,
    totalWithTax: real)

  /** The body of a create request; any field may be missing. */
  datatype StoreRequest = StoreRequest(
    invoiceId: Option<int>,
    description: Option<string>,
    quantity: Option<int>,
    unitPrice: Option<real>,
    taxPercentage: Option<real>)

  /** One field of an update request: not sent, sent as an explicit null, or sent with a value. */
  datatype Field<T> = Absent | Null | Given(value: T)

  /** The body of an update request. `invoice_id` is not among the accepted fields. */
  datatype Patch = Patch(
    description: Field<string>,
    quantity: Field<int>,
    unitPrice: Field<real>,
    taxPercentage: Field<real>)

  /** Either the stored item, or the names of the fields whose validation rule failed. */
  datatype Result<T> = Ok(value: T) | Invalid(fields: set<string>)

  /** The three amounts derived from the inputs. */
  datatype Amounts = Amounts(total: real, taxAmount: real, totalWithTax: real)

  // ---------------------------------------------------------------------------
  // Validation rules

  /**
   * "required" refuses a string that PHP's `trim` empties, that is one made
   * only of `trim`'s white space (see `DescriptionOkTrim`); "max:255" bounds
   * its length.
   */
  predicate DescriptionOk(d: string) {
    (exists i :: 0 <= i < |d| && !IsPhpSpace(d[i])) && |d| <= 255
  }

  lemma DescriptionOkTrim(d: string)
    ensures DescriptionOk(d) <==> Trim(d, IsPhpSpace) != [] && |d| <= 255
  {
  }
  predicate QuantityOk(q: int) { q >= 1 }
  predicate UnitPriceOk(p: real) { p >= 0.0 }
  predicate TaxPercentageOk(t: real) { 0.0 <= t <= 100.0 }

  /** The inputs of an item lie in the ranges validation admits. */
  predicate ValidItem(it: Item) {
    DescriptionOk(it.description) && QuantityOk(it.quantity)
    && UnitPriceOk(it.unitPrice) && TaxPercentageOk(it.taxPercentage)
  }

  /** The derived amounts agree with the inputs. */
  predicate Consistent(it: Item) {
    && it.total == it.quantity as real * it.unitPrice
    && it.taxAmount == it.taxPercentage / 100.0 * it.total
    && it.totalWithTax == it.total + it.taxAmount
  }

  /** The amounts for a quantity, unit price and tax percentage. */
  function Compute(quantity: int, unitPrice: real, taxPercentage: real): Amounts {
    var total := quantity as real * unitPrice;
    var tax := taxPercentage / 100.0 * total;
    Amounts(total, tax, total + tax)
  }

  function WithAmounts(it: Item, a: Amounts): Item {
    it.(total := a.total, taxAmount := a.taxAmount, totalWithTax := a.totalWithTax)
  }

  // ---------------------------------------------------------------------------
  // store

  /** The fields of a create request that break their rule; `invoiceIds` are the invoices that exist. */
  function StoreErrors(req: StoreRequest, invoiceIds: set<int>): set<string> {
    (if req.invoiceId.Some? && req.invoiceId.value in invoiceIds then {} else {"invoice_id"})
    + (if req.description.Some? && DescriptionOk(req.description.value) then {} else {"description"})
    + (if req.quantity.Some? && QuantityOk(req.quantity.value) then {} else {"quantity"})
    + (if req.unitPrice.Some? && UnitPriceOk(req.unitPrice.value) then {} else {"unit_price"})
    + (if req.taxPercentage.None? || TaxPercentageOk(req.taxPercentage.value) then {} else {"tax_percentage"})
  }

  /** The item `store` creates, or the failed fields. */
  function Store(req: StoreRequest, invoiceIds: set<int>): (r: Result<Item>)
    ensures r.Ok? <==> StoreErrors(req, invoiceIds) == {}
    ensures r.Invalid? ==> r.fields == StoreErrors(req, invoiceIds)
    ensures r.Ok? ==> ValidItem(r.value) && Consistent(r.value)
    ensures r.Ok? ==>
              && Some(r.value.invoiceId) == req.invoiceId && r.value.invoiceId in invoiceIds
              && Some(r.value.description) == req.description
              && Some(r.value.quantity) == req.quantity
              && Some(r.value.unitPrice) == req.unitPrice
              && r.value.taxPercentage == req.taxPercentage.GetOr(0.0)
  {
    var errors := StoreErrors(req, invoiceIds);
    if errors != {} then Invalid(errors)
    else
      assert "invoice_id" !in errors && "description" !in errors && "quantity" !in errors;
      assert "unit_price" !in errors && "tax_percentage" !in errors;
      var pct := req.taxPercentage.GetOr(0.0);
      var a := Compute(req.quantity.value, req.unitPrice.value, pct);
      Ok(Item(req.invoiceId.value, req.description.value, req.quantity.value, req.unitPrice.value,
              pct, a.total, a.taxAmount, a.totalWithTax))
  }

  /** A create request without a tax percentage stores 0 % and no tax. */
  lemma StoreWithoutTax(req: StoreRequest, invoiceIds: set<int>)
    requires req.taxPercentage.None?
    requires Store(req, invoiceIds).Ok?
    ensures var it := Store(req, invoiceIds).value;
            it.taxPercentage == 0.0 && it.taxAmount == 0.0 && it.totalWithTax == it.total
  {
  }

  /** For inputs in the validated ranges: 0 <= tax <= total <= total with tax <= 2 * total. */
  lemma AmountBounds(it: Item)
    requires ValidItem(it) && Consistent(it)
    ensures 0.0 <= it.taxAmount <= it.total <= it.totalWithTax <= 2.0 * it.total
  {
    ProductNonNegative(it.quantity as real, it.unitPrice);
    ShareBounds(it.total, it.taxPercentage / 100.0, it.taxAmount, it.totalWithTax);
  }

  /** The total of a quantity of at least 1 at a non-negative price is non-negative. */
  lemma ProductNonNegative(q: real, price: real)
    requires q >= 1.0 && price >= 0.0
    ensures q * price >= 0.0
  {
  }

  /** A tax that is a share `f` in [0, 1] of a non-negative total lies between 0 and the total, and total plus tax within twice the total. */
  lemma ShareBounds(total: real, f: real, tax: real, withTax: real)
    requires total >= 0.0 && 0.0 <= f <= 1.0
    requires tax == f * total && withTax == total + tax
    ensures 0.0 <= tax <= total <= withTax <= 2.0 * total
  {
    assert total - tax == (1.0 - f) * total;
  }

  // ---------------------------------------------------------------------------
  // update

  /** The fields of an update request that break their rule ("sometimes|required": a sent field may not be null). */
  function UpdateErrors(p: Patch): set<string> {
    (if p.description.Null? || (p.description.Given? && !DescriptionOk(p.description.value)) then {"description"} else {})
    + (if p.quantity.Null? || (p.quantity.Given? && !QuantityOk(p.quantity.value)) then {"quantity"} else {})
    + (if p.unitPrice.Null? || (p.unitPrice.Given? && !UnitPriceOk(p.unitPrice.value)) then {"unit_price"} else {})
    + (if p.taxPercentage.Given? && !TaxPercentageOk(p.taxPercentage.value) then {"tax_percentage"} else {})
  }

  /** Whether the request supplies (non-null) any input the amounts depend on. */
  predicate SuppliesAmountInput(p: Patch) {
    p.quantity.Given? || p.unitPrice.Given? || p.taxPercentage.Given?
  }

  function Pick<T>(f: Field<T>, stored: T): T {
    if f.Given? then f.value else stored
  }

  /**
   * The stored item after a valid update: missing inputs are taken from the
   * stored item, the amounts are recomputed from the merged inputs when an
   * input is supplied, and the supplied fields are written back. An explicit
   * null tax percentage counts as not supplied (the corrected reading; see
   * `UpdateAsWritten`).
   */
  function ApplyPatch(it: Item, p: Patch): Item {
    var q := Pick(p.quantity, it.quantity);
    var price := Pick(p.unitPrice, it.unitPrice);
    var pct := Pick(p.taxPercentage, it.taxPercentage);
    var written := it.(description := Pick(p.description, it.description), quantity := q, unitPrice := price, taxPercentage := pct);
    if SuppliesAmountInput(p) then WithAmounts(written, Compute(q, price, pct)) else written
  }

  /**
   * `update` as written, after validation has passed. `isset` is false for a
   * key sent as null, so an explicit null tax percentage triggers no
   * recomputation and `??` falls back to the stored value; `update` then
   * writes every validated key back, the null included, to a column declared
   * NOT NULL DEFAULT 0. A database in strict mode refuses that write: the
   * request fails after validation and the row stays as it was (None). A
   * MySQL server outside strict mode stores 0 instead.
   */
  function UpdateAsWritten(it: Item, p: Patch, strictSql: bool): Option<Item>
    requires UpdateErrors(p) == {}
  {
    // `isset` on the three inputs
    var recompute := p.quantity.Given? || p.unitPrice.Given? || p.taxPercentage.Given?;
    // `??` on each input
    var q := Pick(p.quantity, it.quantity);
    var price := Pick(p.unitPrice, it.unitPrice);
    var pct := Pick(p.taxPercentage, it.taxPercentage);
    var a := if recompute then Compute(q, price, pct) else Amounts(it.total, it.taxAmount, it.totalWithTax);
    if p.taxPercentage.Null? && strictSql then None
    else
      // every sent key is written; validation admits no null but the tax percentage's
      var pctColumn := match p.taxPercentage
        case Given(v) => v
        case Null => 0.0
        case Absent => it.taxPercentage;
      Some(Item(it.invoiceId, Pick(p.description, it.description), Pick(p.quantity, it.quantity),
                Pick(p.unitPrice, it.unitPrice), pctColumn, a.total, a.taxAmount, a.totalWithTax))
  }

  /** Without an explicit null tax percentage, the update as written stores exactly the corrected item. */
  lemma AsWrittenWithoutNullTax(it: Item, p: Patch, strictSql: bool)
    requires UpdateErrors(p) == {} && !p.taxPercentage.Null?
    ensures UpdateAsWritten(it, p, strictSql) == Some(ApplyPatch(it, p))
  {
  }

  /**
   * With an explicit null tax percentage, a valid update of a consistent,
   * valid item fails on a strict database. On a lenient one it stores the
   * corrected item with a 0 % rate, which is consistent only when the
   * corrected item carries no tax at all.
   */
  lemma AsWrittenWithNullTax(it: Item, p: Patch)
    requires ValidItem(it) && Consistent(it)
    requires UpdateErrors(p) == {} && p.taxPercentage.Null?
    ensures UpdateAsWritten(it, p, true) == None
    ensures UpdateAsWritten(it, p, false) == Some(ApplyPatch(it, p).(taxPercentage := 0.0))
    ensures Consistent(UpdateAsWritten(it, p, false).value) <==> ApplyPatch(it, p).taxAmount == 0.0
  {
    UpdatePreservesInvariant(it, p);
  }

  /** An update supplying an input recomputes all three amounts from the merged inputs. */
  lemma UpdateRecomputes(it: Item, p: Patch)
    requires SuppliesAmountInput(p)
    ensures var r := ApplyPatch(it, p);
            && r.quantity == Pick(p.quantity, it.quantity)
            && r.unitPrice == Pick(p.unitPrice, it.unitPrice)
            && r.taxPercentage == Pick(p.taxPercentage, it.taxPercentage)
            && Consistent(r)
  {
  }

  /** An update supplying only a tax percentage keeps the stored quantity and unit price in the new amounts. */
  lemma TaxOnlyUpdate(it: Item, pct: real)
    requires Consistent(it)
    ensures var r := ApplyPatch(it, Patch(Absent, Absent, Absent, Given(pct)));
            && r.total == it.total
            && r.taxAmount == pct / 100.0 * it.quantity as real * it.unitPrice
            && r.totalWithTax == it.total + r.taxAmount
  {
  }

  /** An update supplying no input (only a description, say) leaves every input and amount as stored. */
  lemma UpdateWithoutInputs(it: Item, p: Patch)
    requires !SuppliesAmountInput(p)
    ensures var r := ApplyPatch(it, p);
            && r.quantity == it.quantity && r.unitPrice == it.unitPrice
            && r.taxPercentage == it.taxPercentage
            && r.total == it.total && r.taxAmount == it.taxAmount && r.totalWithTax == it.totalWithTax
  {
  }

  /** An update never moves an item to another invoice, and keeps a description it was not sent. */
  lemma UpdateKeepsInvoice(it: Item, p: Patch)
    ensures ApplyPatch(it, p).invoiceId == it.invoiceId
    ensures !p.description.Given? ==> ApplyPatch(it, p).description == it.description
  {
  }

  /** A valid update of a consistent, valid item yields a consistent, valid item. */
  lemma UpdatePreservesInvariant(it: Item, p: Patch)
    requires ValidItem(it) && Consistent(it)
    requires UpdateErrors(p) == {}
    ensures ValidItem(ApplyPatch(it, p)) && Consistent(ApplyPatch(it, p))
  {
    var r := ApplyPatch(it, p);
    assert "description" !in UpdateErrors(p) && "quantity" !in UpdateErrors(p);
    assert "unit_price" !in UpdateErrors(p) && "tax_percentage" !in UpdateErrors(p);
    if SuppliesAmountInput(p) {
      UpdateRecomputes(it, p);
    } else {
      UpdateWithoutInputs(it, p);
    }
  }

  /**
   * As written, a request sending only `"tax_percentage": null` to a
   * consistent 18 % item passes validation, yet a strict database refuses the
   * write and a lenient one keeps the 18 of tax beside a 0 % rate. The
   * corrected reading leaves the item unchanged.
   */
  lemma NullTaxUpdateAsWritten()
    ensures var it := Item(1, "Consulting", 1, 100.0, 18.0, 100.0, 18.0, 118.0);
            var p := Patch(Absent, Absent, Absent, Null);
            && ValidItem(it) && Consistent(it) && UpdateErrors(p) == {}
            && UpdateAsWritten(it, p, true) == None
            && UpdateAsWritten(it, p, false).Some?
            && !Consistent(UpdateAsWritten(it, p, false).value)
            && ApplyPatch(it, p) == it
  {
    var it := Item(1, "Consulting", 1, 100.0, 18.0, 100.0, 18.0, 118.0);
    var p := Patch(Absent, Absent, Absent, Null);
    assert !IsPhpSpace(it.description[0]);
    var lenient := UpdateAsWritten(it, p, false).value;
    assert lenient.taxPercentage == 0.0 && lenient.taxAmount == 18.0;
  }

  // ---------------------------------------------------------------------------
  // The stored row

  /** A persisted invoice line item, whose columns `update` overwrites in place. */
  class InvoiceItem {
    var invoiceId: int
    var description: string
    var quantity: int
    var unitPrice: real
    var taxPercentage: real
    var total: real
    var taxAmount: real
    var totalWithTax: real

    function Value(): Item
      reads this
    {
      Item(invoiceId, description, quantity, unitPrice, taxPercentage, total, taxAmount, totalWithTax)
    }

    /** The row `store` inserts for a created item. */
    constructor (it: Item)
      ensures Value() == it
    {
      invoiceId, description, quantity, unitPrice := it.invoiceId, it.description, it.quantity, it.unitPrice;
      taxPercentage, total, taxAmount, totalWithTax := it.taxPercentage, it.total, it.taxAmount, it.totalWithTax;
    }

    /**
     * `update`: validate, merge the supplied inputs with the stored ones,
     * recompute the amounts when an input was supplied, and write back.
     * Returns the failed fields; on failure nothing is written.
     */
    method Update(p: Patch) returns (errors: set<string>)
      modifies this
      ensures errors == UpdateErrors(p)
      ensures errors != {} ==> Value() == old(Value())
      ensures errors == {} ==> Value() == ApplyPatch(old(Value()), p)
      ensures invoiceId == old(invoiceId)
      ensures !p.description.Given? ==> description == old(description)
      ensures !SuppliesAmountInput(p) ==>
                quantity == old(quantity) && unitPrice == old(unitPrice) && taxPercentage == old(taxPercentage)
                && total == old(total) && taxAmount == old(taxAmount) && totalWithTax == old(totalWithTax)
      ensures old(ValidItem(Value()) && Consistent(Value())) ==> ValidItem(Value()) && Consistent(Value())
    {
      ghost var before := Value();
      errors := UpdateErrors(p);
      if errors != {} {
        return;
      }
      if ValidItem(before) && Consistent(before) {
        UpdatePreservesInvariant(before, p);
      }
      if p.description.Given? {
        description := p.description.value;
      }
      if SuppliesAmountInput(p) {
        var q := Pick(p.quantity, quantity);
        var price := Pick(p.unitPrice, unitPrice);
        var pct := Pick(p.taxPercentage, taxPercentage);
        var a := Compute(q, price, pct);
        quantity, unitPrice, taxPercentage := q, price, pct;
        total, taxAmount, totalWithTax := a.total, a.taxAmount, a.totalWithTax;
      }
    }
  }
}
