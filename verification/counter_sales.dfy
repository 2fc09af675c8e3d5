/**
  The counter-sale invoice form: its line items and their validity rules, the
  per-line discount and GST calculator, the running totals recomputed from the
  lines, the catalog search behind the item picker, and the two handlers that
  rewrite one line.
 */
module CounterSales {
  import opened Optional
  import opened Seqs
  import opened Catalog

  const Percentage: string := "PERCENTAGE"
  const Amount: string := "AMOUNT"

  /** One invoice line as the form holds it. `discountType` is the raw string of the form. */
  datatype LineItem = LineItem(
    itemId: int, itemCode: string, itemName: string,
    quantity: real, unitPrice: real,
    discountType: string, discountValue: real,
    cgstRate: real, sgstRate: real, igstRate: real, cessRate: real)

  /**
    The per-line item rules of the form's schema. A line that passes carries an item id of at least 1
    (the blank row's 0 fails), and none of the picker's `|| 1` / `|| "PERCENTAGE"` fallbacks applies to it.
   */
  predicate ItemValid(item: LineItem): (v: bool)
    ensures v ==> item.itemId != BlankRow.itemId && item.quantity != 0.0 && item.discountType != ""
  {
    && item.itemId >= 1
    && item.itemCode != "" && item.itemName != ""
    && item.quantity > 0.0
    && item.unitPrice >= 0.0
    && (item.discountType == Percentage || item.discountType == Amount)
    && item.discountValue >= 0.0
    && IsRate(item.cgstRate) && IsRate(item.sgstRate) && IsRate(item.igstRate) && IsRate(item.cessRate)
  }

  /** The whole invoice form. An absent round-off is `None`. */
  datatype InvoiceForm = InvoiceForm(
    customerName: string, orderDate: string, paymentMethod: string,
    items: seq<LineItem>, roundOffAmount: Option<real>)

  /** The form's schema: a customer, a known payment method, at least one line, every line valid. */
  predicate FormValid(form: InvoiceForm): (v: bool)
    ensures v ==> form.items != [] && forall i :: 0 <= i < |form.items| ==> form.items[i] != BlankRow
  {
    && form.customerName != ""
    && (form.paymentMethod == "CASH" || form.paymentMethod == "CARD" || form.paymentMethod == "UPI")
    && |form.items| >= 1
    && forall i :: 0 <= i < |form.items| ==> ItemValid(form.items[i])
  }

  /** The schema puts no constraint on the order date or the round-off: changing either never changes validity. */
  lemma FormValidIgnoresDateAndRoundOff(form: InvoiceForm, orderDate: string, roundOffAmount: Option<real>)
    ensures FormValid(form.(orderDate := orderDate, roundOffAmount := roundOffAmount)) <==> FormValid(form)
  {
  }

  /** The blank line the form starts with and appends on "+ Add Item". */
  const BlankRow: LineItem := LineItem(0, "", "", 1.0, 0.0, Percentage, 0.0, 0.0, 0.0, 0.0, 0.0)

  /** The initial form; `today` stands for the date the browser clock supplies. */
  function DefaultForm(today: string): InvoiceForm {
    InvoiceForm("", today, "CASH", [BlankRow], None)
  }

  /** The form's initial values do not pass the schema: a customer and an item must be chosen. */
  lemma DefaultFormInvalid(today: string)
    ensures !FormValid(DefaultForm(today))
    ensures !ItemValid(BlankRow)
  {
  }

  // ---------------------------------------------------------------------------
  // Per-line calculator

  /** The seven values computed for one line. */
  datatype LineTotals = LineTotals(
    lineTotal: real, discount: real, taxableAmount: real,
    cgst: real, sgst: real, igst: real, cess: real)

  /** `rate` percent of `base`. */
  function Percent(base: real, rate: real): real {
    base * rate / 100.0
  }

  /** A rate within 0..100 takes a share between nothing and all of a non-negative base. */
  lemma PercentBounds(base: real, rate: real)
    requires base >= 0.0 && IsRate(rate)
    ensures 0.0 <= Percent(base, rate) <= base
  {
    assert base * rate >= 0.0;
    assert base * (100.0 - rate) >= 0.0;
  }

  /**
    Line total, discount (percentage of the line total, or a flat amount that is not
    capped), the taxable amount clamped at zero, and the four taxes on top of it.
   */
  function CalculateItemTotals(item: LineItem): (t: LineTotals)
    ensures t.lineTotal == item.quantity * item.unitPrice
    ensures t.taxableAmount >= 0.0
    ensures t.taxableAmount >= t.lineTotal - t.discount
    ensures t.taxableAmount == 0.0 || t.taxableAmount == t.lineTotal - t.discount
  {
    var lineTotal := item.quantity * item.unitPrice;
    var discount := if item.discountType == Percentage then Percent(lineTotal, item.discountValue)
                    else item.discountValue;
    var taxableAmount := if lineTotal - discount > 0.0 then lineTotal - discount else 0.0;
    LineTotals(lineTotal, discount, taxableAmount,
               Percent(taxableAmount, item.cgstRate), Percent(taxableAmount, item.sgstRate),
               Percent(taxableAmount, item.igstRate), Percent(taxableAmount, item.cessRate))
  }

  /** A discount that does not exceed the line total is subtracted exactly. */
  lemma DiscountWithinLineTotal(item: LineItem)
    requires CalculateItemTotals(item).discount <= CalculateItemTotals(item).lineTotal
    ensures CalculateItemTotals(item).taxableAmount
         == CalculateItemTotals(item).lineTotal - CalculateItemTotals(item).discount
  {
  }

  /** With no discount the whole (non-negative) line total is taxable. */
  lemma ZeroDiscountTaxesLineTotal(item: LineItem)
    requires item.discountValue == 0.0 && item.quantity * item.unitPrice >= 0.0
    ensures CalculateItemTotals(item).discount == 0.0
    ensures CalculateItemTotals(item).taxableAmount == item.quantity * item.unitPrice
  {
  }

  /** A flat discount larger than the line total is kept as entered and zeroes the taxable amount. */
  lemma FlatDiscountNotCapped(item: LineItem)
    requires item.discountType != Percentage
    requires item.discountValue > item.quantity * item.unitPrice
    ensures CalculateItemTotals(item).discount == item.discountValue
    ensures CalculateItemTotals(item).taxableAmount == 0.0
    ensures CalculateItemTotals(item).cgst == 0.0 && CalculateItemTotals(item).sgst == 0.0
    ensures CalculateItemTotals(item).igst == 0.0 && CalculateItemTotals(item).cess == 0.0
  {
  }

  /**
    Each tax depends only on the taxable amount and its own rate: two lines that agree
    on quantity, price and discount and on one rate agree on that tax.
   */
  lemma TaxesIndependent(a: LineItem, b: LineItem)
    requires a.quantity == b.quantity && a.unitPrice == b.unitPrice
    requires a.discountType == b.discountType && a.discountValue == b.discountValue
    ensures CalculateItemTotals(a).taxableAmount == CalculateItemTotals(b).taxableAmount
    ensures a.cgstRate == b.cgstRate ==> CalculateItemTotals(a).cgst == CalculateItemTotals(b).cgst
    ensures a.sgstRate == b.sgstRate ==> CalculateItemTotals(a).sgst == CalculateItemTotals(b).sgst
    ensures a.igstRate == b.igstRate ==> CalculateItemTotals(a).igst == CalculateItemTotals(b).igst
    ensures a.cessRate == b.cessRate ==> CalculateItemTotals(a).cess == CalculateItemTotals(b).cess
  {
  }

  /** The bounds every line the schema accepts satisfies. */
  predicate LineBounded(t: LineTotals) {
    && t.lineTotal >= 0.0 && t.discount >= 0.0
    && 0.0 <= t.taxableAmount <= t.lineTotal
    && 0.0 <= t.cgst <= t.taxableAmount && 0.0 <= t.sgst <= t.taxableAmount
    && 0.0 <= t.igst <= t.taxableAmount && 0.0 <= t.cess <= t.taxableAmount
  }

  /** For a valid line: nothing negative, taxable at most the line total, each tax at most the taxable amount. */
  lemma ValidLineBounded(item: LineItem)
    requires ItemValid(item)
    ensures LineBounded(CalculateItemTotals(item))
    ensures item.discountType == Percentage && item.discountValue <= 100.0 ==>
              CalculateItemTotals(item).taxableAmount
              == CalculateItemTotals(item).lineTotal - CalculateItemTotals(item).discount
  {
    var t := CalculateItemTotals(item);
    assert t.lineTotal >= 0.0 by {
      assert item.quantity * item.unitPrice >= 0.0;
    }
    if item.discountType == Percentage {
      assert t.discount == Percent(t.lineTotal, item.discountValue);
      if item.discountValue <= 100.0 {
        PercentBounds(t.lineTotal, item.discountValue);
      } else {
        assert t.lineTotal * item.discountValue >= 0.0;
      }
    }
    PercentBounds(t.taxableAmount, item.cgstRate);
    PercentBounds(t.taxableAmount, item.sgstRate);
    PercentBounds(t.taxableAmount, item.igstRate);
    PercentBounds(t.taxableAmount, item.cessRate);
  }

  /** The blank row contributes nothing: quantity 1 at price 0 with all rates 0. */
  lemma BlankRowIsZero()
    ensures CalculateItemTotals(BlankRow) == Zero
  {
  }

  /** The worked example: 2 x 500 with 10% off and 9% + 9% GST. */
  const ExampleItem: LineItem := LineItem(2, "ITEM002", "Mouse", 2.0, 500.0, Percentage, 10.0, 9.0, 9.0, 0.0, 0.0)

  lemma ExampleLineValues()
    ensures CalculateItemTotals(ExampleItem) == LineTotals(1000.0, 100.0, 900.0, 81.0, 81.0, 0.0, 0.0)
  {
  }

  /** The example's invoice: tax 162 on a taxable 900, so the grand total is 1062 plus the round-off. */
  lemma ExampleInvoiceTotals(roundOff: real)
    ensures InvoiceTotals([ExampleItem], Some(roundOff)).totalTax == 162.0
    ensures InvoiceTotals([ExampleItem], Some(roundOff)).grandTotal == 1062.0 + roundOff
  {
    ExampleLineValues();
    SumSingle(ExampleItem);
    TotalsOfSum([ExampleItem], LineTotals(1000.0, 100.0, 900.0, 81.0, 81.0, 0.0, 0.0), Some(roundOff));
  }

  // ---------------------------------------------------------------------------
  // Invoice totals

  const Zero: LineTotals := LineTotals(0.0, 0.0, 0.0, 0.0, 0.0, 0.0, 0.0)

  /** Field-by-field sum of two sets of line values. */
  function Plus(a: LineTotals, b: LineTotals): LineTotals {
    LineTotals(a.lineTotal + b.lineTotal, a.discount + b.discount, a.taxableAmount + b.taxableAmount,
               a.cgst + b.cgst, a.sgst + b.sgst, a.igst + b.igst, a.cess + b.cess)
  }

  /** The field-by-field sum of every line's values, accumulated front to back. */
  function SumLines(items: seq<LineItem>): LineTotals
    decreases |items|
  {
    if items == [] then Zero
    else Plus(SumLines(items[..|items| - 1]), CalculateItemTotals(items[|items| - 1]))
  }

  /** The nine figures shown under the table. */
  datatype Totals = Totals(
    subtotal: real, totalDiscount: real, totalTaxableAmount: real,
    totalCgst: real, totalSgst: real, totalIgst: real, totalCess: real,
    totalTax: real, grandTotal: real)

  /** The totals as a function of the lines and the round-off; a missing round-off counts as 0. */
  function InvoiceTotals(items: seq<LineItem>, roundOffAmount: Option<real>): Totals {
    var s := SumLines(items);
    var totalTax := s.cgst + s.sgst + s.igst + s.cess;
    Totals(s.lineTotal, s.discount, s.taxableAmount, s.cgst, s.sgst, s.igst, s.cess,
           totalTax, s.taxableAmount + totalTax + roundOffAmount.GetOr(0.0))
  }

  /** The totals depend on the lines only through their summed values. */
  lemma TotalsFollowSums(a: seq<LineItem>, b: seq<LineItem>, roundOffAmount: Option<real>)
    requires SumLines(a) == SumLines(b)
    ensures InvoiceTotals(a, roundOffAmount) == InvoiceTotals(b, roundOffAmount)
  {
  }

  lemma TotalsOfSum(items: seq<LineItem>, sum: LineTotals, roundOffAmount: Option<real>)
    requires SumLines(items) == sum
    ensures InvoiceTotals(items, roundOffAmount).totalTax == sum.cgst + sum.sgst + sum.igst + sum.cess
    ensures InvoiceTotals(items, roundOffAmount).grandTotal
         == sum.taxableAmount + sum.cgst + sum.sgst + sum.igst + sum.cess + roundOffAmount.GetOr(0.0)
  {
  }

  /** The recomputation: seven running sums over the lines, then the tax total and the grand total. */
  method ComputeTotals(items: seq<LineItem>, roundOffAmount: Option<real>) returns (t: Totals)
    ensures t == InvoiceTotals(items, roundOffAmount)
    ensures t.subtotal == SumLines(items).lineTotal && t.totalDiscount == SumLines(items).discount
    ensures t.totalTaxableAmount == SumLines(items).taxableAmount
    ensures t.totalCgst == SumLines(items).cgst && t.totalSgst == SumLines(items).sgst
    ensures t.totalIgst == SumLines(items).igst && t.totalCess == SumLines(items).cess
    ensures t.totalTax == t.totalCgst + t.totalSgst + t.totalIgst + t.totalCess
    ensures t.grandTotal == t.totalTaxableAmount + t.totalTax + roundOffAmount.GetOr(0.0)
    ensures items == [] ==> t == Totals(0.0, 0.0, 0.0, 0.0, 0.0, 0.0, 0.0, 0.0, roundOffAmount.GetOr(0.0))
  {
    var subtotal, totalDiscount, totalTaxableAmount := 0.0, 0.0, 0.0;
    var totalCgst, totalSgst, totalIgst, totalCess := 0.0, 0.0, 0.0, 0.0;
    for i := 0 to |items|
      invariant LineTotals(subtotal, totalDiscount, totalTaxableAmount,
                           totalCgst, totalSgst, totalIgst, totalCess) == SumLines(items[..i])
    {
      var line := CalculateItemTotals(items[i]);
      subtotal := subtotal + line.lineTotal;
      totalDiscount := totalDiscount + line.discount;
      totalTaxableAmount := totalTaxableAmount + line.taxableAmount;
      totalCgst := totalCgst + line.cgst;
      totalSgst := totalSgst + line.sgst;
      totalIgst := totalIgst + line.igst;
      totalCess := totalCess + line.cess;
      assert items[..i + 1][..i] == items[..i];
    }
    assert items[..|items|] == items;
    var totalTax := totalCgst + totalSgst + totalIgst + totalCess;
    var grandTotal := totalTaxableAmount + totalTax + roundOffAmount.GetOr(0.0);
    t := Totals(subtotal, totalDiscount, totalTaxableAmount, totalCgst, totalSgst, totalIgst, totalCess,
                totalTax, grandTotal);
  }

  lemma PlusZero(a: LineTotals)
    ensures Plus(a, Zero) == a
  {
  }

  lemma PlusAssociative(a: LineTotals, b: LineTotals, c: LineTotals)
    ensures Plus(Plus(a, b), c) == Plus(a, Plus(b, c))
  {
  }

  lemma PlusExchange(a: LineTotals, b: LineTotals, c: LineTotals)
    ensures Plus(Plus(a, b), c) == Plus(Plus(a, c), b)
  {
  }

  /** The sum of a run of lines followed by one more line. */
  lemma SumSnoc(items: seq<LineItem>, row: LineItem)
    ensures SumLines(items + [row]) == Plus(SumLines(items), CalculateItemTotals(row))
  {
    assert (items + [row])[..|items|] == items;
  }

  lemma SumSingle(row: LineItem)
    ensures SumLines([row]) == CalculateItemTotals(row)
  {
    SumSnoc([], row);
    assert [] + [row] == [row];
  }

  /** The sum over two runs of lines is the sum of their sums. */
  lemma {:induction false} SumConcat(a: seq<LineItem>, b: seq<LineItem>)
    ensures SumLines(a + b) == Plus(SumLines(a), SumLines(b))
    decreases |b|
  {
    if b == [] {
      assert a + b == a;
    } else {
      var init, last := b[..|b| - 1], b[|b| - 1];
      assert b == init + [last];
      assert a + b == (a + init) + [last];
      SumSnoc(a + init, last);
      SumSnoc(init, last);
      SumConcat(a, init);
      PlusAssociative(SumLines(a), SumLines(init), CalculateItemTotals(last));
    }
  }

  /** "+ Add Item" appends the blank row, which leaves every total unchanged. */
  lemma AppendBlankRowKeepsTotals(items: seq<LineItem>, roundOffAmount: Option<real>)
    ensures InvoiceTotals(items + [BlankRow], roundOffAmount) == InvoiceTotals(items, roundOffAmount)
  {
    SumSnoc(items, BlankRow);
    BlankRowIsZero();
    PlusZero(SumLines(items));
    TotalsFollowSums(items + [BlankRow], items, roundOffAmount);
  }

  /** The list after the "x" button of row `index`. */
  function RemoveRow(items: seq<LineItem>, index: nat): seq<LineItem>
    requires index < |items|
  {
    items[..index] + items[index + 1..]
  }

  /** Removing a row lowers each summed value by exactly that row's values. */
  lemma RemoveRowSubtractsLine(items: seq<LineItem>, index: nat)
    requires index < |items|
    ensures SumLines(items) == Plus(SumLines(RemoveRow(items, index)), CalculateItemTotals(items[index]))
  {
    var front, back := items[..index], items[index + 1..];
    var f, line, b := SumLines(front), CalculateItemTotals(items[index]), SumLines(back);
    assert SumLines(items) == Plus(Plus(f, line), b) by {
      SplitAt(items, index);
      SumConcat(front + [items[index]], back);
      SumSnoc(front, items[index]);
    }
    assert SumLines(RemoveRow(items, index)) == Plus(f, b) by {
      assert RemoveRow(items, index) == front + back;
      SumConcat(front, back);
    }
    PlusExchange(f, line, b);
  }

  /** Removing a row lowers the grand total by that row's taxable amount and taxes. */
  lemma RemoveRowLowersGrandTotal(items: seq<LineItem>, index: nat, roundOffAmount: Option<real>)
    requires index < |items|
    ensures var line := CalculateItemTotals(items[index]);
            InvoiceTotals(items, roundOffAmount).grandTotal
            == InvoiceTotals(RemoveRow(items, index), roundOffAmount).grandTotal
               + line.taxableAmount + line.cgst + line.sgst + line.igst + line.cess
  {
    RemoveRowSubtractsLine(items, index);
    var rest := SumLines(RemoveRow(items, index));
    var line := CalculateItemTotals(items[index]);
    TotalsOfSum(items, Plus(rest, line), roundOffAmount);
    TotalsOfSum(RemoveRow(items, index), rest, roundOffAmount);
  }

  /** Appending a row and removing it again restores the totals. */
  lemma AppendThenRemoveRestoresTotals(items: seq<LineItem>, row: LineItem, roundOffAmount: Option<real>)
    ensures InvoiceTotals(RemoveRow(items + [row], |items|), roundOffAmount)
         == InvoiceTotals(items, roundOffAmount)
  {
    assert RemoveRow(items + [row], |items|) == items;
  }

  /** Removing a row and appending it again at the end moves it last without changing any total. */
  lemma MoveRowToEndKeepsTotals(items: seq<LineItem>, index: nat, roundOffAmount: Option<real>)
    requires index < |items|
    ensures InvoiceTotals(RemoveRow(items, index) + [items[index]], roundOffAmount)
         == InvoiceTotals(items, roundOffAmount)
  {
    RemoveRowSubtractsLine(items, index);
    SumSnoc(RemoveRow(items, index), items[index]);
    TotalsFollowSums(RemoveRow(items, index) + [items[index]], items, roundOffAmount);
  }

  /** For lines the schema accepts, every total is non-negative and bounded as each line is. */
  lemma {:induction false} ValidItemsTotalsBounded(items: seq<LineItem>)
    requires forall i :: 0 <= i < |items| ==> ItemValid(items[i])
    ensures LineBounded(SumLines(items))
    decreases |items|
  {
    if items != [] {
      ValidItemsTotalsBounded(items[..|items| - 1]);
      ValidLineBounded(items[|items| - 1]);
    }
  }

  /**
    The per-row "Total" cell of the table: taxable amount plus CGST and SGST only.
    For a single line it falls short of the grand total by that line's IGST and Cess.
   */
  function RowTotalCell(t: LineTotals): real {
    t.taxableAmount + t.cgst + t.sgst
  }

  lemma RowTotalCellOmitsIgstAndCess(item: LineItem)
    ensures var t := CalculateItemTotals(item);
            InvoiceTotals([item], None).grandTotal == RowTotalCell(t) + t.igst + t.cess
  {
    SumSingle(item);
    TotalsOfSum([item], CalculateItemTotals(item), None);
  }

  // ---------------------------------------------------------------------------
  // Item picker and row edits

  /** An entry of the item picker. */
  datatype SelectOption = SelectOption(value: int, caption: string, data: Item)

  function Label(item: Item): string {
    item.code + " - " + item.name
  }

  /** The picker's entries for `query`: the matching catalog items in catalog order, labelled "code - name". */
  function LoadItems(catalog: seq<Item>, query: string): (r: seq<SelectOption>)
    ensures |r| == |SearchItems(catalog, query)|
    ensures forall i :: 0 <= i < |r| ==>
              var x := SearchItems(catalog, query)[i]; r[i] == SelectOption(x.id, Label(x), x)
    ensures forall i :: 0 <= i < |r| ==> r[i].data in catalog && MatchesSearch(r[i].data, query)
    ensures forall x :: x in catalog && MatchesSearch(x, query) ==>
              exists i :: 0 <= i < |r| && r[i].data == x
  {
    var found := SearchItems(catalog, query);
    var r := seq(|found|, i requires 0 <= i < |found| => SelectOption(found[i].id, Label(found[i]), found[i]));
    assert forall x :: x in found ==> exists i :: 0 <= i < |r| && r[i].data == x by {
      forall x | x in found ensures exists i :: 0 <= i < |r| && r[i].data == x {
        var i :| 0 <= i < |found| && found[i] == x;
        assert r[i].data == x;
      }
    }
    r
  }

  /** An empty query offers the whole catalog. */
  lemma EmptyQueryOffersCatalog(catalog: seq<Item>)
    ensures |LoadItems(catalog, "")| == |catalog|
    ensures forall i :: 0 <= i < |catalog| ==> LoadItems(catalog, "")[i].data == catalog[i]
  {
    EmptySearchKeepsAll(catalog);
  }

  /** The row's identity, price and rates all come from the catalog record. */
  predicate CopiedFrom(row: LineItem, item: Item) {
    && row.itemId == item.id && row.itemCode == item.code && row.itemName == item.name
    && row.unitPrice == item.price
    && row.cgstRate == item.cgst && row.sgstRate == item.sgst
    && row.igstRate == item.igst && row.cessRate == item.cess
  }

  /** A row after picking `item`: falsy quantity becomes 1, an empty discount type becomes PERCENTAGE. */
  function SelectItem(row: LineItem, item: Item): LineItem {
    LineItem(item.id, item.code, item.name,
             if row.quantity == 0.0 then 1.0 else row.quantity,
             item.price,
             if row.discountType == "" then Percentage else row.discountType,
             row.discountValue,  // `discountValue || 0` maps 0 to 0
             item.cgst, item.sgst, item.igst, item.cess)
  }

  /** Picking an item rewrites row `index` from the catalog record; clearing the picker changes nothing. */
  function HandleItemChange(items: seq<LineItem>, selected: Option<SelectOption>, index: nat): (r: seq<LineItem>)
    requires index < |items|
    ensures |r| == |items|
    ensures forall j :: 0 <= j < |items| && j != index ==> r[j] == items[j]
    ensures selected.None? ==> r == items
    ensures selected.Some? ==>
              && CopiedFrom(r[index], selected.value.data)
              && r[index].quantity == (if items[index].quantity == 0.0 then 1.0 else items[index].quantity)
              && r[index].discountType == (if items[index].discountType == "" then Percentage
                                           else items[index].discountType)
              && r[index].discountValue == items[index].discountValue
  {
    if selected.None? then items else items[index := SelectItem(items[index], selected.value.data)]
  }

  /** Picking an item for a row whose entries are valid keeps those entries as they were. */
  lemma SelectionKeepsValidEntries(row: LineItem, item: Item)
    requires ItemValid(row)
    ensures var r := SelectItem(row, item);
            r.quantity == row.quantity && r.discountType == row.discountType
            && r.discountValue == row.discountValue
  {
  }

  /** Picking a valid catalog record for a blank or valid row yields a line the schema accepts. */
  lemma SelectionMakesRowValid(row: LineItem, item: Item)
    requires RecordValid(item) && item.id >= 1
    requires row.quantity >= 0.0 && row.discountValue >= 0.0
    requires row.discountType == "" || row.discountType == Percentage || row.discountType == Amount
    ensures ItemValid(SelectItem(row, item))
  {
  }

  /** Naming a customer and picking a valid catalog item for the blank row makes the default form valid. */
  lemma FillingDefaultFormMakesItValid(today: string, customer: string, pick: SelectOption)
    requires customer != "" && RecordValid(pick.data) && pick.data.id >= 1
    ensures var form := DefaultForm(today);
            FormValid(form.(customerName := customer, items := HandleItemChange(form.items, Some(pick), 0)))
  {
    SelectionMakesRowValid(BlankRow, pick.data);
  }

  /** The fields of a line. */
  datatype Field =
    | ItemIdField | ItemCodeField | ItemNameField | QuantityField | UnitPriceField
    | DiscountTypeField | DiscountValueField
    | CgstRateField | SgstRateField | IgstRateField | CessRateField

  /** The edits the table's inputs make: quantity, unit price, discount type and discount value. */
  datatype FieldEdit =
    | SetQuantity(quantity: real)
    | SetUnitPrice(unitPrice: real)
    | SetDiscountType(discountType: string)
    | SetDiscountValue(discountValue: real)

  function EditedField(e: FieldEdit): Field {
    match e
    case SetQuantity(_) => QuantityField
    case SetUnitPrice(_) => UnitPriceField
    case SetDiscountType(_) => DiscountTypeField
    case SetDiscountValue(_) => DiscountValueField
  }

  /** `a` and `b` agree on field `f`. */
  predicate SameOn(a: LineItem, b: LineItem, f: Field) {
    match f
    case ItemIdField => a.itemId == b.itemId
    case ItemCodeField => a.itemCode == b.itemCode
    case ItemNameField => a.itemName == b.itemName
    case QuantityField => a.quantity == b.quantity
    case UnitPriceField => a.unitPrice == b.unitPrice
    case DiscountTypeField => a.discountType == b.discountType
    case DiscountValueField => a.discountValue == b.discountValue
    case CgstRateField => a.cgstRate == b.cgstRate
    case SgstRateField => a.sgstRate == b.sgstRate
    case IgstRateField => a.igstRate == b.igstRate
    case CessRateField => a.cessRate == b.cessRate
  }

  /** `row` holds the value the edit writes. */
  predicate Carries(row: LineItem, e: FieldEdit) {
    match e
    case SetQuantity(q) => row.quantity == q
    case SetUnitPrice(p) => row.unitPrice == p
    case SetDiscountType(d) => row.discountType == d
    case SetDiscountValue(v) => row.discountValue == v
  }

  function ApplyEdit(row: LineItem, e: FieldEdit): LineItem {
    match e
    case SetQuantity(q) => row.(quantity := q)
    case SetUnitPrice(p) => row.(unitPrice := p)
    case SetDiscountType(d) => row.(discountType := d)
    case SetDiscountValue(v) => row.(discountValue := v)
  }

  /** Editing one input of row `index` writes that field of that row and nothing else. */
  function HandleFieldChange(items: seq<LineItem>, index: nat, e: FieldEdit): (r: seq<LineItem>)
    requires index < |items|
    ensures |r| == |items|
    ensures forall j :: 0 <= j < |items| && j != index ==> r[j] == items[j]
    ensures Carries(r[index], e)
    ensures forall f :: f != EditedField(e) ==> SameOn(r[index], items[index], f)
  {
    items[index := ApplyEdit(items[index], e)]
  }
}
