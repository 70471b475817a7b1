// The shared budget context: the grouped budget lines (`presupuestoItems`), the
// measurement being edited (`currentMedicion`) and the last error, with the totals,
// line edits, row insertion and removal, measurement edits and the saved percentage.

module PresupuestoStore {
  import opened Strings
  import opened Grouped
  import opened JsNumbers

  /** A JavaScript value held in a numeric field: edits write the raw input string. */
  datatype JsVal = Num(n: real) | Str(s: string)

  /** `parseFloat(v.toString()) || 0`. */
  function FloatOf(v: JsVal): real
  {
    match v
    case Num(x) => x
    case Str(s) => ParseFloatOrZero(s)
  }

  datatype CItem = CItem(id: string, code: string, name: string, unit: string,
                         quantity: JsVal, unitPrice: JsVal, total: JsVal)

  /** The fields an edit can name. */
  datatype CKey = Id | Code | Name | Unit | Quantity | UnitPrice | Total

  /** A running sum: a number, or a string once `+` has met a string operand. */
  datatype Amount = Number(value: real) | Text

  /** `acc + (item.total || 0)`. */
  function AddTerm(acc: Amount, v: JsVal): Amount
  {
    match v
    case Num(x) => if acc.Number? then Number(acc.value + x) else Text
    case Str(s) => if s == [] then acc else Text
  }

  /** `total += sectionTotal`. */
  function AddAmount(a: Amount, b: Amount): Amount
  {
    if a.Number? && b.Number? then Number(a.value + b.value) else Text
  }

  /** The `reduce` over one section. */
  function SectionSum(items: seq<CItem>): Amount
  {
    if items == [] then Number(0.0) else AddTerm(SectionSum(items[..|items| - 1]), items[|items| - 1].total)
  }

  function GrandSum(g: Groups<CItem>): Amount
  {
    if g == [] then Number(0.0) else AddAmount(GrandSum(g[..|g| - 1]), SectionSum(g[|g| - 1].items))
  }

  function SectionSums(g: Groups<CItem>): (r: seq<(string, Amount)>)
    ensures |r| == |g| && forall i :: 0 <= i < |g| ==> r[i] == (g[i].tag, SectionSum(g[i].items))
  {
    if g == [] then [] else SectionSums(g[..|g| - 1]) + [(g[|g| - 1].tag, SectionSum(g[|g| - 1].items))]
  }

  /** `calculateTotals`: the `forEach` accumulating `total` and `sectionTotals`. */
  method CalculateTotals(g: Groups<CItem>) returns (total: Amount, sectionTotals: seq<(string, Amount)>)
    ensures total == GrandSum(g) && sectionTotals == SectionSums(g)
  {
    total := Number(0.0);
    sectionTotals := [];
    for i := 0 to |g|
      invariant total == GrandSum(g[..i]) && sectionTotals == SectionSums(g[..i])
    {
      assert g[..i + 1][..i] == g[..i];
      var sectionTotal := SectionSum(g[i].items);
      sectionTotals := sectionTotals + [(g[i].tag, sectionTotal)];
      total := AddAmount(total, sectionTotal);
    }
    assert g[..|g|] == g;
  }

  predicate NumericItems(items: seq<CItem>)
  {
    forall j :: 0 <= j < |items| ==> items[j].total.Num?
  }

  function TotalOfNumeric(items: seq<CItem>): real
    requires NumericItems(items)
  {
    if items == [] then 0.0 else TotalOfNumeric(items[..|items| - 1]) + items[|items| - 1].total.n
  }

  /** With numeric totals a section's sum is the number Σ total. */
  lemma {:induction false} NumericSectionSum(items: seq<CItem>)
    requires NumericItems(items)
    ensures SectionSum(items) == Number(TotalOfNumeric(items))
  {
    if items != [] {
      NumericSectionSum(items[..|items| - 1]);
    }
  }

  /** With numeric totals everywhere, the overall total is a number and is the sum of
      the section totals. */
  lemma {:induction false} NumericGrandSum(g: Groups<CItem>)
    requires forall i :: 0 <= i < |g| ==> NumericItems(g[i].items)
    ensures GrandSum(g).Number?
    ensures g != [] ==>
              (GrandSum(g).value == GrandSum(g[..|g| - 1]).value + TotalOfNumeric(g[|g| - 1].items))
  {
    if g != [] {
      NumericGrandSum(g[..|g| - 1]);
      NumericSectionSum(g[|g| - 1].items);
    }
  }

  /** A non-empty string total turns its section's sum into a string. */
  lemma {:induction false} StringTotalMakesText(items: seq<CItem>, j: nat)
    requires j < |items| && items[j].total.Str? && items[j].total.s != []
    ensures SectionSum(items) == Text
  {
    var n := |items| - 1;
    if j < n {
      StringTotalMakesText(items[..n], j);
    }
  }

  function FindById(items: seq<CItem>, id: string): (r: Option<nat>)
    ensures r.Some? ==> r.value < |items| && items[r.value].id == id &&
                        forall j :: 0 <= j < r.value ==> items[j].id != id
    ensures r.None? ==> forall j :: 0 <= j < |items| ==> items[j].id != id
  {
    if items == [] then None
    else if items[0].id == id then Some(0)
    else match FindById(items[1..], id)
      case None => None
      case Some(k) => Some(k + 1)
  }

  /** `(parseFloat(quantity.toString()) || 0) * (parseFloat(unitPrice.toString()) || 0)`. */
  function LineProduct(quantity: JsVal, unitPrice: JsVal): real
  {
    FloatOf(quantity) * FloatOf(unitPrice)
  }

  /** `total` recomputed after a quantity or price edit. */
  function Recomputed(it: CItem, key: CKey): CItem
  {
    if key == Quantity || key == UnitPrice then it.(total := Num(LineProduct(it.quantity, it.unitPrice))) else it
  }

  /** `(item[key] as any) = value`: the raw string is stored, numeric fields included. */
  function SetRaw(it: CItem, key: CKey, value: string): CItem
  {
    match key
    case Id => it.(id := value)
    case Code => it.(code := value)
    case Name => it.(name := value)
    case Unit => it.(unit := value)
    case Quantity => it.(quantity := Str(value))
    case UnitPrice => it.(unitPrice := Str(value))
    case Total => it.(total := Str(value))
  }

  /** `updatePresupuestoItem` as written; the section must exist. */
  function UpdateItemAsWritten(g: Groups<CItem>, tag: string, itemId: string, key: CKey, value: string): Groups<CItem>
    requires Get(g, tag).Some?
  {
    var items := Get(g, tag).value;
    match FindById(items, itemId)
    case None => g
    case Some(k) => Put(g, tag, items[k := Recomputed(SetRaw(items[k], key, value), key)])
  }

  /** The edit with numeric fields stored as the number the total computation reads. */
  function SetParsed(it: CItem, key: CKey, value: string): CItem
  {
    match key
    case Quantity => it.(quantity := Num(ParseFloatOrZero(value)))
    case UnitPrice => it.(unitPrice := Num(ParseFloatOrZero(value)))
    case Total => it.(total := Num(ParseFloatOrZero(value)))
    case _ => SetRaw(it, key, value)
  }

  function EditedLine(it: CItem, key: CKey, value: string): CItem
  {
    Recomputed(SetParsed(it, key, value), key)
  }

  function UpdateItem(g: Groups<CItem>, tag: string, itemId: string, key: CKey, value: string): Groups<CItem>
    requires Get(g, tag).Some?
  {
    var items := Get(g, tag).value;
    match FindById(items, itemId)
    case None => g
    case Some(k) => Put(g, tag, items[k := EditedLine(items[k], key, value)])
  }

  /** On one line: a quantity or price edit sets `total` to the product of the parsed
      quantity and price; an edit of a text field keeps `total`. */
  lemma EditedLineTotal(it: CItem, key: CKey, value: string)
    ensures var r := EditedLine(it, key, value);
            (key == Quantity || key == UnitPrice ==> r.total == Num(LineProduct(r.quantity, r.unitPrice))) &&
            (key == Quantity ==> r.quantity == Num(ParseFloatOrZero(value)) && r.unitPrice == it.unitPrice) &&
            (key == UnitPrice ==> r.unitPrice == Num(ParseFloatOrZero(value)) && r.quantity == it.quantity) &&
            (key == Total ==> r.total == Num(ParseFloatOrZero(value))) &&
            (key != Quantity && key != UnitPrice && key != Total ==> r.total == it.total)
  {
  }

  /** Editing `total` as written leaves a string total behind, and the section sum built
      by `calculateTotals` is then a string. */
  lemma TotalEditMakesTextSum(g: Groups<CItem>, tag: string, itemId: string, value: string, k: nat)
    requires Get(g, tag).Some? && FindById(Get(g, tag).value, itemId) == Some(k) && value != []
    ensures var after := Get(UpdateItemAsWritten(g, tag, itemId, Total, value), tag);
            after.Some? && k < |after.value| && after.value[k].total == Str(value) &&
            SectionSum(after.value) == Text
  {
    var items := Get(g, tag).value;
    var edited := items[k := Recomputed(SetRaw(items[k], Total, value), Total)];
    GetPut(g, tag, edited, tag);
    StringTotalMakesText(edited, k);
  }

  /** Editing with numbers stored keeps every total numeric, so the totals stay numbers. */
  lemma UpdateKeepsTotalsNumeric(g: Groups<CItem>, tag: string, itemId: string, key: CKey, value: string)
    requires Get(g, tag).Some? && NumericItems(Get(g, tag).value)
    ensures var after := Get(UpdateItem(g, tag, itemId, key, value), tag);
            after.Some? && NumericItems(after.value)
  {
    var items := Get(g, tag).value;
    match FindById(items, itemId)
    case None =>
    case Some(k) =>
      var edited := items[k := EditedLine(items[k], key, value)];
      GetPut(g, tag, edited, tag);
      EditedLineTotal(items[k], key, value);
      assert edited[k].total.Num?;
  }

  /** An unknown id leaves the lines as they were. */
  lemma UpdateUnknownIsNoOp(g: Groups<CItem>, tag: string, itemId: string, key: CKey, value: string)
    requires Get(g, tag).Some?
    requires forall j :: 0 <= j < |Get(g, tag).value| ==> Get(g, tag).value[j].id != itemId
    ensures UpdateItem(g, tag, itemId, key, value) == g
    ensures UpdateItemAsWritten(g, tag, itemId, key, value) == g
  {
    assert FindById(Get(g, tag).value, itemId).None?;
  }

  /** Only a quantity or price edit recomputes `total`; it is then the product of the
      parsed quantity and price. */
  lemma UpdateRecomputesTotal(g: Groups<CItem>, tag: string, itemId: string, key: CKey, value: string, k: nat)
    requires Get(g, tag).Some? && FindById(Get(g, tag).value, itemId) == Some(k)
    ensures var old_ := Get(g, tag).value[k];
            var after := Get(UpdateItem(g, tag, itemId, key, value), tag);
            after.Some? && k < |after.value| &&
            (key == Quantity || key == UnitPrice ==>
               after.value[k].total == Num(LineProduct(after.value[k].quantity, after.value[k].unitPrice))) &&
            (key != Quantity && key != UnitPrice && key != Total ==> after.value[k].total == old_.total)
  {
    var items := Get(g, tag).value;
    var edited := items[k := EditedLine(items[k], key, value)];
    GetPut(g, tag, edited, tag);
    EditedLineTotal(items[k], key, value);
  }

  /** `{ ...prev, [tag]: [...(prev[tag] || []), item] }`. */
  function AddItem(g: Groups<CItem>, tag: string, item: CItem): Groups<CItem>
  {
    Put(g, tag, GetOr(g, tag) + [item])
  }

  function Without(items: seq<CItem>, id: string): (r: seq<CItem>)
    ensures forall x :: x in r <==> x in items && x.id != id
  {
    if items == [] then []
    else
      var rest := Without(items[1..], id);
      assert items == [items[0]] + items[1..];
      (if items[0].id == id then [] else [items[0]]) + rest
  }

  /** `{ ...prev, [tag]: prev[tag].filter(item => item.id !== itemId) }`; the section must
      exist. */
  function RemoveItem(g: Groups<CItem>, tag: string, itemId: string): Groups<CItem>
    requires Get(g, tag).Some?
  {
    Put(g, tag, Without(Get(g, tag).value, itemId))
  }

  lemma AddItemAppends(g: Groups<CItem>, tag: string, item: CItem, other: string)
    ensures Get(AddItem(g, tag, item), tag) == Some(GetOr(g, tag) + [item])
    ensures other != tag ==> Get(AddItem(g, tag, item), other) == Get(g, other)
  {
    GetPut(g, tag, GetOr(g, tag) + [item], other);
  }

  lemma RemoveItemFilters(g: Groups<CItem>, tag: string, itemId: string, other: string)
    requires Get(g, tag).Some?
    ensures var after := Get(RemoveItem(g, tag, itemId), tag);
            after.Some? && forall x :: x in after.value <==> x in Get(g, tag).value && x.id != itemId
    ensures other != tag ==> Get(RemoveItem(g, tag, itemId), other) == Get(g, other)
  {
    GetPut(g, tag, Without(Get(g, tag).value, itemId), other);
  }

  /** A line of the measurement being edited (a budget line plus progress, in percent). */
  datatype MCItem = MCItem(id: string, total: real, anterior: real, presente: real,
                           acumulado: real, completedAmount: real)

  /** The two messages `updateMedicionItem` can set. */
  datatype MedicionError = BelowPrevious(anterior: real) | Over100

  datatype Outcome = Applied(data: Groups<MCItem>) | Rejected(reason: MedicionError) | Unchanged

  /** `findIndex` on the id: the first matching line. */
  function FindLine(items: seq<MCItem>, id: string): (r: Option<nat>)
    ensures r.Some? ==> r.value < |items| && items[r.value].id == id &&
                        forall j :: 0 <= j < r.value ==> items[j].id != id
    ensures r.None? ==> forall j :: 0 <= j < |items| ==> items[j].id != id
  {
    if items == [] then None
    else if items[0].id == id then Some(0)
    else match FindLine(items[1..], id)
      case None => None
      case Some(k) => Some(k + 1)
  }

  /** The updater passed to `setCurrentMedicion`; the section must exist. */
  function MedicionEdit(m: Groups<MCItem>, tag: string, itemId: string, presente: real): Outcome
    requires Get(m, tag).Some?
  {
    var items := Get(m, tag).value;
    match FindLine(items, itemId)
    case None => Unchanged
    case Some(k) =>
      var item := items[k];
      if presente < item.anterior then Rejected(BelowPrevious(item.anterior))
      else if presente > 100.0 then Rejected(Over100)
      else Applied(Put(m, tag, items[k := Progressed(item, presente)]))
  }

  /** `{ ...item, presente, acumulado: presente, completedAmount: item.total * presente / 100 }`. */
  function Progressed(item: MCItem, presente: real): MCItem
  {
    item.(presente := presente, acumulado := presente, completedAmount := item.total * presente / 100.0)
  }

  /** An accepted value lies between the previous percentage and 100, and the line then
      holds it as present and accumulated, with `completedAmount = total × presente / 100`. */
  lemma MedicionEditAccepted(m: Groups<MCItem>, tag: string, itemId: string, presente: real, k: nat)
    requires Get(m, tag).Some? && FindLine(Get(m, tag).value, itemId) == Some(k)
    requires MedicionEdit(m, tag, itemId, presente).Applied?
    ensures var before := Get(m, tag).value[k];
            var after := Get(MedicionEdit(m, tag, itemId, presente).data, tag);
            before.anterior <= presente <= 100.0 && after.Some? && k < |after.value| &&
            after.value[k].presente == presente && after.value[k].acumulado == presente &&
            after.value[k].completedAmount == before.total * presente / 100.0 &&
            after.value[k].id == before.id && after.value[k].total == before.total &&
            after.value[k].anterior == before.anterior
  {
    var items := Get(m, tag).value;
    GetPut(m, tag, items[k := Progressed(items[k], presente)], tag);
  }

  /** Values below the previous one or above 100 are rejected with their message. */
  lemma MedicionEditRejects(m: Groups<MCItem>, tag: string, itemId: string, presente: real, k: nat)
    requires Get(m, tag).Some? && FindLine(Get(m, tag).value, itemId) == Some(k)
    ensures var anterior := Get(m, tag).value[k].anterior;
            (presente < anterior ==> MedicionEdit(m, tag, itemId, presente) == Rejected(BelowPrevious(anterior))) &&
            (anterior <= presente && presente > 100.0 ==> MedicionEdit(m, tag, itemId, presente) == Rejected(Over100))
  {
  }

  /** `totalCompleted / totalAmount * 100`; `None` stands for the NaN or Infinity that a
      zero total amount produces. */
  function CompletedPercentage(totalCompleted: real, totalAmount: real): Option<real>
  {
    if totalAmount == 0.0 then None else Some(totalCompleted / totalAmount * 100.0)
  }

  function CompletedSum(items: seq<MCItem>): real
  {
    if items == [] then 0.0 else CompletedSum(items[..|items| - 1]) + items[|items| - 1].completedAmount
  }

  function AmountSum(items: seq<MCItem>): real
  {
    if items == [] then 0.0 else AmountSum(items[..|items| - 1]) + items[|items| - 1].total
  }

  /** The nested `forEach` of `saveMedicion` over every line of every section. */
  method SaveTotals(m: Groups<MCItem>) returns (totalCompleted: real, totalAmount: real)
    ensures totalCompleted == CompletedSum(Flatten(m)) && totalAmount == AmountSum(Flatten(m))
  {
    totalCompleted := 0.0;
    totalAmount := 0.0;
    for i := 0 to |m|
      invariant totalCompleted == CompletedSum(Flatten(m[..i])) && totalAmount == AmountSum(Flatten(m[..i]))
    {
      var items := m[i].items;
      assert m[..i + 1][..i] == m[..i];
      assert Flatten(m[..i]) + items[..0] == Flatten(m[..i]);
      for j := 0 to |items|
        invariant totalCompleted == CompletedSum(Flatten(m[..i]) + items[..j])
        invariant totalAmount == AmountSum(Flatten(m[..i]) + items[..j])
      {
        assert (Flatten(m[..i]) + items[..j + 1])[..|Flatten(m[..i]) + items[..j + 1]| - 1]
               == Flatten(m[..i]) + items[..j];
        totalCompleted := totalCompleted + items[j].completedAmount;
        totalAmount := totalAmount + items[j].total;
      }
      assert items[..|items|] == items;
      assert Flatten(m[..i + 1]) == Flatten(m[..i]) + items;
    }
    assert m[..|m|] == m;
  }

  /** The saved percentage: none when there is no budget or no measurement. */
  method SavePercentage(hasPresupuesto: bool, current: Option<Groups<MCItem>>) returns (r: Option<Option<real>>)
    ensures !hasPresupuesto || current.None? ==> r.None?
    ensures hasPresupuesto && current.Some? ==>
              r == Some(CompletedPercentage(CompletedSum(Flatten(current.value)), AmountSum(Flatten(current.value))))
  {
    if !hasPresupuesto || current.None? {
      return None;
    }
    var totalCompleted, totalAmount := SaveTotals(current.value);
    return Some(CompletedPercentage(totalCompleted, totalAmount));
  }

  /** Lines all fully done make 100%; an empty measurement has no percentage. */
  lemma CompletedPercentageBounds(c: real, a: real)
    ensures a == 0.0 ==> CompletedPercentage(c, a).None?
    ensures a != 0.0 && c == a ==> CompletedPercentage(c, a) == Some(100.0)
  {
    if a != 0.0 && c == a {
      assert c / a == 1.0;
    }
  }

  class Store {
    var presupuestoItems: Groups<CItem>
    var currentMedicion: Option<Groups<MCItem>>
    var error: Option<MedicionError>

    constructor(initial: Groups<CItem>)
      ensures presupuestoItems == initial && currentMedicion == None && error == None
    {
      presupuestoItems := initial;
      currentMedicion := None;
      error := None;
    }

    method UpdatePresupuestoItem(tag: string, itemId: string, key: CKey, value: string)
      requires Get(presupuestoItems, tag).Some?
      modifies this
      ensures presupuestoItems == UpdateItem(old(presupuestoItems), tag, itemId, key, value)
      ensures currentMedicion == old(currentMedicion) && error == old(error)
    {
      var items := Get(presupuestoItems, tag).value;
      match FindById(items, itemId) {
        case None =>
        case Some(k) =>
          presupuestoItems := Put(presupuestoItems, tag, items[k := EditedLine(items[k], key, value)]);
      }
    }

    method AddItemToSection(tag: string, item: CItem)
      modifies this
      ensures presupuestoItems == AddItem(old(presupuestoItems), tag, item)
      ensures currentMedicion == old(currentMedicion) && error == old(error)
    {
      presupuestoItems := Put(presupuestoItems, tag, GetOr(presupuestoItems, tag) + [item]);
    }

    method RemoveItemFromSection(tag: string, itemId: string)
      requires Get(presupuestoItems, tag).Some?
      modifies this
      ensures presupuestoItems == RemoveItem(old(presupuestoItems), tag, itemId)
      ensures currentMedicion == old(currentMedicion) && error == old(error)
    {
      presupuestoItems := Put(presupuestoItems, tag, Without(Get(presupuestoItems, tag).value, itemId));
    }

    /** No current measurement: nothing happens. A rejected value sets the error and
        keeps the measurement. */
    method UpdateMedicionItem(tag: string, itemId: string, presente: real)
      requires currentMedicion.Some? ==> Get(currentMedicion.value, tag).Some?
      modifies this
      ensures presupuestoItems == old(presupuestoItems)
      ensures old(currentMedicion).None? ==> currentMedicion == None && error == old(error)
      ensures old(currentMedicion).Some? ==>
                match MedicionEdit(old(currentMedicion).value, tag, itemId, presente)
                case Unchanged => currentMedicion == old(currentMedicion) && error == old(error)
                case Rejected(e) => currentMedicion == old(currentMedicion) && error == Some(e)
                case Applied(d) => currentMedicion == Some(d) && error == old(error)
    {
      if currentMedicion.None? {
        return;
      }
      var outcome := MedicionEdit(currentMedicion.value, tag, itemId, presente);
      match outcome {
        case Unchanged =>
        case Rejected(e) => error := Some(e);
        case Applied(d) => currentMedicion := Some(d);
      }
    }
  }
}
