/**
 * The totals the form recomputes after every change: the items subtotal,
 * the taxable base, the tax, the total cost and the final price.
 */
module Totals {
  import opened Lists
  import opened Numeric
  import opened Quote

  /** The five figures of the summary panel and the printed sheet. */
  datatype Figures = Figures(subtotal: real, taxable: real, taxAmount: real, totalCost: real, finalPrice: real)

  /** What one row adds: quantity times unit price, each read with the zero fallback. */
  function LineAmount(item: QuoteItem): real {
    Num(item.quantity) * Num(item.pricePerUnit)
  }

  /** `items.reduce((sum, item) => sum + qty * price, acc)`: a left fold. */
  function FoldLines(acc: real, items: seq<QuoteItem>): real
    decreases |items|
  {
    if items == [] then acc else FoldLines(acc + LineAmount(items[0]), items[1..])
  }

  /** The reference sum of the line amounts, written as a plain recursion. */
  function SumLines(items: seq<QuoteItem>): real {
    if items == [] then 0.0 else LineAmount(items[0]) + SumLines(items[1..])
  }

  /** The fold the source runs adds up exactly the line amounts, in order. */
  lemma {:induction false} FoldLinesIsSum(acc: real, items: seq<QuoteItem>)
    ensures FoldLines(acc, items) == acc + SumLines(items)
    decreases |items|
  {
    if items != [] {
      FoldLinesIsSum(acc + LineAmount(items[0]), items[1..]);
    }
  }

  lemma {:induction false} SumLinesAppend(a: seq<QuoteItem>, b: seq<QuoteItem>)
    ensures SumLines(a + b) == SumLines(a) + SumLines(b)
  {
    if a == [] {
      assert a + b == b;
    } else {
      assert (a + b)[0] == a[0];
      assert (a + b)[1..] == a[1..] + b;
      SumLinesAppend(a[1..], b);
    }
  }

  /** The fee, tax and discount arithmetic, once the subtotal and the amounts are read. */
  function Combine(subtotal: real, labor: real, cutting: real, transport: real, other: real,
                   taxRate: real, discount: real): (t: Figures)
  {
    var taxable := subtotal + labor + cutting + transport + other;
    var taxAmount := taxable * taxRate / 100.0;
    var totalCost := taxable + taxAmount;
    Figures(subtotal, taxable, taxAmount, totalCost, totalCost - discount)
  }

  /**
   * The totals of a form. `subtotal` is the source's fold over the rows (the
   * in-order sum of the line amounts, by `SubtotalIsSum`), `taxable` adds the
   * fees, and the final price is the taxable base grown by the tax rate (a
   * percentage) less the discount.
   */
  function ComputeTotals(f: FormData): (t: Figures)
    ensures t.taxable == t.subtotal + Num(f.laborCost) + Num(f.cuttingFee)
                         + Num(f.transportationFee) + Num(f.otherFees)
    ensures t.taxAmount == t.taxable * Num(f.taxRate) / 100.0
    ensures t.totalCost == t.taxable + t.taxAmount
    ensures t.finalPrice == t.taxable * (100.0 + Num(f.taxRate)) / 100.0 - Num(f.discount)
  {
    var subtotal := FoldLines(0.0, f.items);
    var labor, cutting, transport := Num(f.laborCost), Num(f.cuttingFee), Num(f.transportationFee);
    var other, taxRate, discount := Num(f.otherFees), Num(f.taxRate), Num(f.discount);
    Combine(subtotal, labor, cutting, transport, other, taxRate, discount)
  }

  /** The subtotal shown is the in-order sum of the line amounts. */
  lemma SubtotalIsSum(f: FormData)
    ensures ComputeTotals(f).subtotal == SumLines(f.items)
  {
    FoldLinesIsSum(0.0, f.items);
  }

  /** A row whose quantity or price holds no digit at all adds nothing. */
  lemma NonNumericLineAddsNothing(items: seq<QuoteItem>, j: int)
    requires 0 <= j < |items|
    requires (forall i :: 0 <= i < |items[j].quantity| ==> !IsDigit(items[j].quantity[i]))
          || (forall i :: 0 <= i < |items[j].pricePerUnit| ==> !IsDigit(items[j].pricePerUnit[i]))
    ensures SumLines(items) == SumLines(items[..j]) + SumLines(items[j + 1..])
  {
    if forall i :: 0 <= i < |items[j].quantity| ==> !IsDigit(items[j].quantity[i]) {
      ParseNoDigits(items[j].quantity);
    } else {
      ParseNoDigits(items[j].pricePerUnit);
    }
    assert items == items[..j] + ([items[j]] + items[j + 1..]);
    SumLinesAppend(items[..j], [items[j]] + items[j + 1..]);
    SumLinesAppend([items[j]], items[j + 1..]);
  }

  /** Replacing the row at `j` changes the sum by exactly the difference of the two rows. */
  lemma {:induction false} SumLinesReplace(a: seq<QuoteItem>, b: seq<QuoteItem>, j: int)
    requires |a| == |b| && 0 <= j < |a|
    requires forall i :: 0 <= i < |a| && i != j ==> a[i] == b[i]
    ensures SumLines(b) == SumLines(a) - LineAmount(a[j]) + LineAmount(b[j])
  {
    if j > 0 {
      assert forall i :: 0 <= i < |a| - 1 && i != j - 1 ==> a[1..][i] == b[1..][i];
      SumLinesReplace(a[1..], b[1..], j - 1);
      assert a[0] == b[0];
    } else {
      assert a[1..] == b[1..];
    }
  }

  /** A new row (quantity "1", empty price) adds nothing to any total. */
  lemma AddItemKeepsTotals(f: FormData, newId: string)
    ensures ComputeTotals(f.(items := AddItem(f.items, newId))) == ComputeTotals(f)
  {
    ParseEmpty();
    SubtotalIsSum(f);
    SubtotalIsSum(f.(items := AddItem(f.items, newId)));
    SumLinesAppend(f.items, [CreateNewItem(newId)]);
    assert SumLines([CreateNewItem(newId)]) == 0.0 by {
      assert LineAmount(CreateNewItem(newId)) == 0.0;
    }
  }

  /** Editing a row of a list with unique ids moves the subtotal by the change of that row alone. */
  lemma UpdateItemTotals(f: FormData, j: int, field: ItemField, value: string)
    requires UniqueKeys(f.items, ItemId) && 0 <= j < |f.items|
    ensures var g := f.(items := UpdateItem(f.items, f.items[j].id, field, value));
            ComputeTotals(g).subtotal
              == ComputeTotals(f).subtotal - LineAmount(f.items[j]) + LineAmount(SetItemField(f.items[j], field, value))
  {
    var r := UpdateItem(f.items, f.items[j].id, field, value);
    forall i | 0 <= i < |f.items| && i != j ensures f.items[i] == r[i] {
      assert ItemId(f.items[i]) != ItemId(f.items[j]);
    }
    SumLinesReplace(f.items, r, j);
    SubtotalIsSum(f);
    SubtotalIsSum(f.(items := r));
  }

  /** Two lists whose rows add the same amounts, row by row, have the same sum. */
  lemma {:induction false} SumLinesSameAmounts(a: seq<QuoteItem>, b: seq<QuoteItem>)
    requires |a| == |b|
    requires forall i :: 0 <= i < |a| ==> LineAmount(a[i]) == LineAmount(b[i])
    ensures SumLines(a) == SumLines(b)
  {
    if a != [] {
      assert forall i :: 0 <= i < |a| - 1 ==> a[1..][i] == a[i + 1] && b[1..][i] == b[i + 1];
      SumLinesSameAmounts(a[1..], b[1..]);
    }
  }

  lemma DescriptionEditKeepsSum(items: seq<QuoteItem>, id: string, value: string)
    ensures SumLines(UpdateItem(items, id, Description, value)) == SumLines(items)
  {
    var r := UpdateItem(items, id, Description, value);
    forall i | 0 <= i < |items| ensures LineAmount(items[i]) == LineAmount(r[i]) {
      if items[i].id == id {
        var e := SetItemField(items[i], Description, value);
        assert GetItemField(e, Quantity) == GetItemField(items[i], Quantity);
        assert GetItemField(e, PricePerUnit) == GetItemField(items[i], PricePerUnit);
      }
    }
    SumLinesSameAmounts(items, r);
  }

  /** Editing descriptions, whatever the ids, moves no total. */
  lemma DescriptionEditKeepsTotals(f: FormData, id: string, value: string)
    ensures ComputeTotals(f.(items := UpdateItem(f.items, id, Description, value))) == ComputeTotals(f)
  {
    DescriptionEditKeepsSum(f.items, id, value);
    TotalsReadOnlyAmounts(f.(items := UpdateItem(f.items, id, Description, value)), f);
  }

  /** Removing the row at `j` from a list of unique ids takes exactly its amount off the subtotal. */
  lemma RemoveItemSum(items: seq<QuoteItem>, j: int)
    requires UniqueKeys(items, ItemId) && 0 <= j < |items| && |items| > 1
    ensures SumLines(RemoveItem(items, items[j].id)) == SumLines(items) - LineAmount(items[j])
  {
    WithoutUnique(items, ItemId, j);
    assert items == items[..j] + ([items[j]] + items[j + 1..]);
    SumLinesAppend(items[..j], [items[j]] + items[j + 1..]);
    SumLinesAppend([items[j]], items[j + 1..]);
    SumLinesAppend(items[..j], items[j + 1..]);
  }

  lemma RemoveItemTotals(f: FormData, j: int)
    requires UniqueKeys(f.items, ItemId) && 0 <= j < |f.items| && |f.items| > 1
    ensures ComputeTotals(f.(items := RemoveItem(f.items, f.items[j].id))).subtotal
         == ComputeTotals(f).subtotal - LineAmount(f.items[j])
  {
    RemoveItemSum(f.items, j);
    SubtotalIsSum(f);
    SubtotalIsSum(f.(items := RemoveItem(f.items, f.items[j].id)));
  }

  /** The totals read nothing of the form but the sum of its rows and its six amount fields. */
  lemma TotalsReadOnlyAmounts(f: FormData, g: FormData)
    requires SumLines(f.items) == SumLines(g.items)
    requires f.laborCost == g.laborCost && f.cuttingFee == g.cuttingFee && f.transportationFee == g.transportationFee
    requires f.discount == g.discount && f.taxRate == g.taxRate && f.otherFees == g.otherFees
    ensures ComputeTotals(f) == ComputeTotals(g)
  {
    FoldLinesIsSum(0.0, f.items);
    FoldLinesIsSum(0.0, g.items);
  }

  /** Setting a field that is not an amount leaves the six amounts and the rows as they were. */
  lemma SetFieldKeepsAmounts(f: FormData, k: FormField, value: string)
    requires !IsAmountField(k)
    ensures var g := SetField(f, k, value);
            && g.items == f.items
            && g.laborCost == f.laborCost && g.cuttingFee == f.cuttingFee && g.transportationFee == f.transportationFee
            && g.discount == f.discount && g.taxRate == f.taxRate && g.otherFees == f.otherFees
  {
    var g := SetField(f, k, value);
    assert g.laborCost == GetField(g, LaborCost) == GetField(f, LaborCost);
    assert g.cuttingFee == GetField(g, CuttingFee) == GetField(f, CuttingFee);
    assert g.transportationFee == GetField(g, TransportationFee) == GetField(f, TransportationFee);
    assert g.discount == GetField(g, Discount) == GetField(f, Discount);
    assert g.taxRate == GetField(g, TaxRate) == GetField(f, TaxRate);
    assert g.otherFees == GetField(g, OtherFees) == GetField(f, OtherFees);
  }

  /** Editing a text field that is not an amount (a name, an address, the logo) moves no total. */
  lemma TextFieldKeepsTotals(f: FormData, k: FormField, value: string)
    requires !IsAmountField(k)
    ensures ComputeTotals(SetField(f, k, value)) == ComputeTotals(f)
  {
    SetFieldKeepsAmounts(f, k, value);
    TotalsReadOnlyAmounts(SetField(f, k, value), f);
  }

  /** A fresh form (one empty row, every fee "0") costs nothing. */
  lemma InitialFormCostsNothing(firstItemId: string, quoteNumber: string, validUntil: string)
    ensures ComputeTotals(InitialFormData(firstItemId, quoteNumber, validUntil)) == Figures(0.0, 0.0, 0.0, 0.0, 0.0)
  {
    var f := InitialFormData(firstItemId, quoteNumber, validUntil);
    SubtotalIsSum(f);
    ParseEmpty();
    ParseNatToString(0);
    assert NatToString(0) == "0";
    assert LineAmount(f.items[0]) == 0.0;
    assert SumLines(f.items) == 0.0 by {
      assert f.items[1..] == [];
    }
  }

  /** Text spelling a whole number reads as that number. */
  lemma NumOfLiteral(s: string, n: nat)
    requires s == NatToString(n)
    ensures Num(s) == n as real
  {
    ParseNatToString(n);
  }

  lemma SmallLiterals()
    ensures Num("0") == 0.0 && Num("1") == 1.0 && Num("2") == 2.0 && Num("10") == 10.0 && Num("50") == 50.0
  {
    NumOfLiteral("0", 0);
    NumOfLiteral("1", 1);
    NumOfLiteral("2", 2);
    NumOfLiteral("10", 10);
    NumOfLiteral("50", 50);
  }

  lemma LargeLiterals()
    ensures Num("100") == 100.0 && Num("200") == 200.0 && Num("500") == 500.0 && Num("1000") == 1000.0
  {
    NumOfLiteral("100", 100);
    NumOfLiteral("200", 200);
    NumOfLiteral("500", 500);
    NumOfLiteral("1000", 1000);
  }

  /**
   * Two rows (2 x 500 and 1 x 1000), labor 200, cutting 100, transport 50,
   * 10% tax and a discount of 100: subtotal 2000, taxable 2350, tax 235,
   * total cost 2585 and final price 2485.
   */
  lemma WorkedExample(f: FormData)
    requires f.items == [QuoteItem("a", "Base cabinet", "2", "500"), QuoteItem("b", "Top cabinet", "1", "1000")]
    requires f.laborCost == "200" && f.cuttingFee == "100" && f.transportationFee == "50"
    requires f.discount == "100" && f.taxRate == "10" && f.otherFees == "0"
    ensures ComputeTotals(f) == Figures(2000.0, 2350.0, 235.0, 2585.0, 2485.0)
  {
    SmallLiterals();
    LargeLiterals();
    SubtotalIsSum(f);
    assert LineAmount(f.items[0]) == 1000.0;
    assert LineAmount(f.items[1]) == 1000.0;
    assert SumLines(f.items) == 2000.0 by {
      assert f.items[1..][1..] == [];
      assert SumLines(f.items[1..]) == LineAmount(f.items[1]);
    }
  }
}
