// Budget arithmetic: item totals, the grand total, each section's share of it (its
// "rubro") and the running share (IACUM) of the sections so far.

module Calculations {
  import opened Strings
  import opened Grouped

  /** The value held by a field declared as text. The budget editor stores
      `Number(value) || 0` in whichever field an edit targets, so a text field can come
      to hold a number. */
  datatype Text = Str(s: string) | Num(x: real)

  /** A budget line; `tag` is optional. `totalPrice`, `parcial` and `rubro` are absent
      until the budget editor computes them. */
  datatype Item = Item(
    id: Text, code: Text, name: Text, unit: Text,
    quantity: real, unitPrice: real, total: real, tag: Option<Text>,
    totalPrice: Option<real>, parcial: Option<real>, rubro: Option<real>)

  function OrZero(x: Option<real>): real
  {
    if x.Some? then x.value else 0.0
  }

  /** `calculateItemTotal(quantity = 0, unitPrice = 0)`. */
  function ItemTotal(quantity: Option<real>, unitPrice: Option<real>): real
  {
    OrZero(quantity) * OrZero(unitPrice)
  }

  /** A missing argument makes the total 0; otherwise it is the product. */
  lemma ItemTotalDefaults(q: real, p: real)
    ensures ItemTotal(None, Some(p)) == 0.0 && ItemTotal(Some(q), None) == 0.0
    ensures ItemTotal(None, None) == 0.0
    ensures ItemTotal(Some(q), Some(p)) == q * p
  {
  }

  function LineTotal(it: Item): real
  {
    ItemTotal(Some(it.quantity), Some(it.unitPrice))
  }

  /** The `reduce` over one section's items. */
  function SectionTotal(items: seq<Item>): real
  {
    if items == [] then 0.0 else SectionTotal(items[..|items| - 1]) + LineTotal(items[|items| - 1])
  }

  /** `calculateGrandTotal`: the `reduce` over the sections. */
  function GrandTotal(g: Groups<Item>): real
  {
    if g == [] then 0.0 else GrandTotal(g[..|g| - 1]) + SectionTotal(g[|g| - 1].items)
  }

  lemma {:induction false} SectionTotalAppend(a: seq<Item>, b: seq<Item>)
    ensures SectionTotal(a + b) == SectionTotal(a) + SectionTotal(b)
    decreases |b|
  {
    if b == [] {
      assert a + b == a;
    } else {
      var n := |b| - 1;
      assert (a + b)[..|a + b| - 1] == a + b[..n];
      SectionTotalAppend(a, b[..n]);
    }
  }

  /** The grand total is the total of all items taken together. */
  lemma {:induction false} GrandTotalIsTotalOfAllItems(g: Groups<Item>)
    ensures GrandTotal(g) == SectionTotal(Flatten(g))
  {
    if g != [] {
      GrandTotalIsTotalOfAllItems(g[..|g| - 1]);
      SectionTotalAppend(Flatten(g[..|g| - 1]), g[|g| - 1].items);
    }
  }

  /** `calculateParcialPercentage`: a share of the grand total, in percent; 0 when the
      grand total is not positive. */
  function Percentage(x: real, grandTotal: real): real
  {
    if grandTotal > 0.0 then x * 100.0 / grandTotal else 0.0
  }

  lemma PercentageAdds(a: real, b: real, gt: real)
    ensures Percentage(a + b, gt) == Percentage(a, gt) + Percentage(b, gt)
  {
  }

  lemma PercentageMonotone(a: real, b: real, gt: real)
    requires a <= b
    ensures Percentage(a, gt) <= Percentage(b, gt)
  {
    if gt > 0.0 {
      assert a * 100.0 <= b * 100.0;
      assert a * 100.0 / gt <= b * 100.0 / gt;
    }
  }

  /** `calculateMedicionAcumulado(anterior = 0, presente = 0)`. */
  function MedicionAcumulado(anterior: Option<real>, presente: Option<real>): (r: real)
    ensures anterior.None? ==> r == OrZero(presente)
    ensures presente.None? ==> r == OrZero(anterior)
  {
    OrZero(anterior) + OrZero(presente)
  }

  function Sum(xs: seq<real>): real
  {
    if xs == [] then 0.0 else Sum(xs[..|xs| - 1]) + xs[|xs| - 1]
  }

  /** `calculateSectionRubros`: one share per section, in entry order. */
  function SectionRubros(g: Groups<Item>, grandTotal: real): (r: seq<real>)
    ensures |r| == |g|
    ensures forall i :: 0 <= i < |g| ==> r[i] == Percentage(SectionTotal(g[i].items), grandTotal)
  {
    if g == [] then []
    else SectionRubros(g[..|g| - 1], grandTotal) + [Percentage(SectionTotal(g[|g| - 1].items), grandTotal)]
  }

  /** A non-positive grand total gives every section a share of 0. */
  lemma RubrosOfNoTotal(g: Groups<Item>, grandTotal: real)
    requires grandTotal <= 0.0
    ensures forall i :: 0 <= i < |g| ==> SectionRubros(g, grandTotal)[i] == 0.0
  {
  }

  /** The shares add up to the share of the sum. */
  lemma {:induction false} RubrosSum(g: Groups<Item>, grandTotal: real)
    ensures Sum(SectionRubros(g, grandTotal)) == Percentage(GrandTotal(g), grandTotal)
  {
    if g != [] {
      var r := SectionRubros(g, grandTotal);
      assert r[..|r| - 1] == SectionRubros(g[..|g| - 1], grandTotal);
      RubrosSum(g[..|g| - 1], grandTotal);
      PercentageAdds(GrandTotal(g[..|g| - 1]), SectionTotal(g[|g| - 1].items), grandTotal);
    }
  }

  /** When the grand total is the real, positive total, the shares add up to 100. */
  lemma RubrosAddUpTo100(g: Groups<Item>)
    requires GrandTotal(g) > 0.0
    ensures Sum(SectionRubros(g, GrandTotal(g))) == 100.0
  {
    RubrosSum(g, GrandTotal(g));
    WholeIs100(GrandTotal(g));
  }

  lemma WholeIs100(gt: real)
    requires gt > 0.0
    ensures Percentage(gt, gt) == 100.0
  {
    assert gt * 100.0 / gt == 100.0;
  }

  /** IACUM of section `i`: the share of the sections up to and including `i`. */
  function Iacum(g: Groups<Item>, grandTotal: real, i: nat): real
    requires i < |g|
  {
    Percentage(GrandTotal(g[..i + 1]), grandTotal)
  }

  /** `calculateSectionIacums`: the running total threaded through the `map`. */
  method SectionIacums(g: Groups<Item>, grandTotal: real) returns (r: seq<real>)
    ensures |r| == |g|
    ensures forall i :: 0 <= i < |g| ==> r[i] == Iacum(g, grandTotal, i)
  {
    var runningTotal := 0.0;
    r := [];
    for i := 0 to |g|
      invariant |r| == i
      invariant runningTotal == GrandTotal(g[..i])
      invariant forall k :: 0 <= k < i ==> r[k] == Iacum(g, grandTotal, k)
    {
      assert g[..i + 1][..i] == g[..i];
      runningTotal := runningTotal + SectionTotal(g[i].items);
      r := r + [Percentage(runningTotal, grandTotal)];
    }
  }

  /** Each IACUM is the sum of the rubros so far. */
  lemma IacumIsRubroPrefixSum(g: Groups<Item>, grandTotal: real, i: nat)
    requires i < |g|
    ensures Iacum(g, grandTotal, i) == Sum(SectionRubros(g, grandTotal)[..i + 1])
  {
    var p := g[..i + 1];
    RubrosSum(p, grandTotal);
    var rp := SectionRubros(p, grandTotal);
    var rg := SectionRubros(g, grandTotal);
    assert rp == rg[..i + 1];
  }

  predicate NonNegativeTotals(g: Groups<Item>)
  {
    forall i :: 0 <= i < |g| ==> SectionTotal(g[i].items) >= 0.0
  }

  lemma {:induction false} GrandTotalPrefixMonotone(g: Groups<Item>, i: nat, j: nat)
    requires NonNegativeTotals(g) && i <= j <= |g|
    ensures GrandTotal(g[..i]) <= GrandTotal(g[..j])
    decreases j - i
  {
    if i < j {
      assert g[..j][..j - 1] == g[..j - 1];
      GrandTotalPrefixMonotone(g, i, j - 1);
    }
  }

  /** With non-negative section totals the IACUMs never decrease. */
  lemma IacumsNonDecreasing(g: Groups<Item>, grandTotal: real, i: nat, j: nat)
    requires NonNegativeTotals(g) && i <= j < |g|
    ensures Iacum(g, grandTotal, i) <= Iacum(g, grandTotal, j)
  {
    GrandTotalPrefixMonotone(g, i + 1, j + 1);
    PercentageMonotone(GrandTotal(g[..i + 1]), GrandTotal(g[..j + 1]), grandTotal);
  }

  /** The last IACUM is 100 when the grand total is the real, positive total. */
  lemma LastIacumIs100(g: Groups<Item>)
    requires g != [] && GrandTotal(g) > 0.0
    ensures Iacum(g, GrandTotal(g), |g| - 1) == 100.0
  {
    assert g[..|g|] == g;
    WholeIs100(GrandTotal(g));
  }

  /** Items with non-negative quantity and price give non-negative section totals. */
  lemma {:induction false} NonNegativeItems(items: seq<Item>)
    requires forall k :: 0 <= k < |items| ==> items[k].quantity >= 0.0 && items[k].unitPrice >= 0.0
    ensures SectionTotal(items) >= 0.0
  {
    if items != [] {
      NonNegativeItems(items[..|items| - 1]);
      var last := items[|items| - 1];
      assert last.quantity * last.unitPrice >= 0.0;
    }
  }
}
