// The measurement editor: choosing the closest earlier measurement of the obra,
// carrying its accumulated amounts into a fresh measurement of the budget, editing a
// line's present amount (with the advance totals that follow), and changing the period.

module MedicionesEditor {
  import opened Strings
  import opened Grouped
  import opened JsNumbers

  /** A budget line, as far as the editor reads it. */
  datatype BudgetItem = BudgetItem(id: string, totalPrice: real)

  datatype MedicionItem = MedicionItem(id: string, anterior: real, presente: real, acumulado: real)

  datatype MedicionSection = MedicionSection(nombre: string, items: seq<MedicionItem>)

  /** A measurement. The advance figures are absent on older records; `None` also stands
      for the NaN or infinity a division by a zero budget gives. */
  datatype Medicion = Medicion(periodo: string, secciones: seq<MedicionSection>,
                               avanceMedicion: Option<real>, avanceAcumulado: Option<real>,
                               presupuestoTotal: Option<real>)

  // ---------------------------------------------------------------------------
  // Periods

  /** `s.substring(0, n)`. */
  function Take(s: string, n: nat): (r: string)
    ensures |r| <= n && StartsWith(s, r)
  {
    if |s| <= n then s else s[..n]
  }

  /** A period as (year, month); `None` is NaN. */
  type Period = (Option<real>, Option<real>)

  /** `periodo.substring(0, 7).split('-').map(Number)` destructured into year and month;
      `None` is NaN, or `undefined` when there is no second piece. */
  function PeriodNumbers(periodo: string): Period
  {
    var pieces := Split(Take(periodo, 7), '-');
    (NumberOf(pieces[0]), if |pieces| > 1 then NumberOf(pieces[1]) else None)
  }

  /** `urlPeriod || initialMedicion.periodo`. */
  function CurrentPeriod(urlPeriod: Option<string>, initial: string): string
  {
    if urlPeriod.Some? && urlPeriod.value != "" then urlPeriod.value else initial
  }

  /** JavaScript's comparisons, false whenever an operand is NaN. */
  predicate Gt(a: Option<real>, b: Option<real>) { a.Some? && b.Some? && a.value > b.value }
  predicate Ge(a: Option<real>, b: Option<real>) { a.Some? && b.Some? && a.value >= b.value }
  predicate Eq(a: Option<real>, b: Option<real>) { a.Some? && b.Some? && a.value == b.value }
  predicate Lt(a: Option<real>, b: Option<real>) { a.Some? && b.Some? && a.value < b.value }

  /** The skip test of the `reduce`: the measurement's period is not earlier than the
      current one. */
  predicate NotEarlier(p: Period, current: Period)
  {
    Gt(p.0, current.0) || (Eq(p.0, current.0) && Ge(p.1, current.1))
  }

  /** `(currentYear - mYear) * 12 + (currentMonth - mMonth)`. */
  function MonthDiff(current: Period, p: Period): (r: Option<real>)
    ensures r.Some? <==> WellFormed(current) && WellFormed(p)
  {
    if current.0.Some? && current.1.Some? && p.0.Some? && p.1.Some? then
      Some((current.0.value - p.0.value) * 12.0 + (current.1.value - p.1.value))
    else None
  }

  /** The periods of the measurements, in list order. */
  function Periods(ms: seq<Medicion>): (r: seq<Period>)
    ensures |r| == |ms| && forall i :: 0 <= i < |ms| ==> r[i] == PeriodNumbers(ms[i].periodo)
  {
    if ms == [] then [] else [PeriodNumbers(ms[0].periodo)] + Periods(ms[1..])
  }

  /** The `reduce` choosing the previous measurement, as the position of the one it keeps. */
  function PreviousIndex(ps: seq<Period>, current: Period): (r: Option<nat>)
    ensures r.Some? ==> r.value < |ps| && !NotEarlier(ps[r.value], current)
  {
    if ps == [] then None
    else
      var n := |ps| - 1;
      var closest := PreviousIndex(ps[..n], current);
      if NotEarlier(ps[n], current) then closest
      else if closest.None? then Some(n)
      else if Lt(MonthDiff(current, ps[n]), MonthDiff(current, ps[closest.value])) then Some(n)
      else closest
  }

  function PreviousMedicion(ms: seq<Medicion>, current: Period): (r: Option<Medicion>)
    ensures r.Some? ==> r.value in ms
  {
    match PreviousIndex(Periods(ms), current)
    case None => None
    case Some(k) => Some(ms[k])
  }

  /** A period whose year and month are numbers. */
  predicate WellFormed(p: Period)
  {
    p.0.Some? && p.1.Some?
  }

  /** There is a previous measurement exactly when some measurement is a candidate. */
  lemma {:induction false} PreviousExists(ps: seq<Period>, current: Period)
    ensures PreviousIndex(ps, current).None? <==> forall j :: 0 <= j < |ps| ==> NotEarlier(ps[j], current)
  {
    if ps != [] {
      var n := |ps| - 1;
      PreviousExists(ps[..n], current);
      assert forall j :: 0 <= j < n ==> ps[..n][j] == ps[j];
    }
  }

  /** With well-formed periods, the measurement chosen has the smallest month difference
      among the candidates, and no earlier entry of the list has the same difference. */
  lemma {:induction false} PreviousIsClosest(ps: seq<Period>, current: Period, j: nat)
    requires WellFormed(current)
    requires forall i :: 0 <= i < |ps| ==> WellFormed(ps[i])
    requires j < |ps| && !NotEarlier(ps[j], current)
    ensures PreviousIndex(ps, current).Some?
    ensures var k := PreviousIndex(ps, current).value;
            MonthDiff(current, ps[k]).value <= MonthDiff(current, ps[j]).value &&
            (j < k ==> MonthDiff(current, ps[k]).value < MonthDiff(current, ps[j]).value)
  {
    var n := |ps| - 1;
    var front := ps[..n];
    assert forall i :: 0 <= i < n ==> front[i] == ps[i];
    var closest := PreviousIndex(front, current);
    if j < n {
      PreviousIsClosest(front, current, j);
    } else if closest.Some? {
      PreviousIsClosest(front, current, closest.value);
    }
  }

  /** For well-formed periods the skip test keeps exactly the periods strictly before. */
  lemma CandidateIsEarlier(p: Period, current: Period)
    requires WellFormed(current) && WellFormed(p)
    ensures !NotEarlier(p, current) <==>
            p.0.value < current.0.value || (p.0.value == current.0.value && p.1.value < current.1.value)
  {
  }

  // ---------------------------------------------------------------------------
  // Carrying the previous measurement forward

  /** `secciones.find(s => s.nombre === nombre)`. */
  function FindSection(secciones: seq<MedicionSection>, nombre: string): (r: Option<MedicionSection>)
    ensures r.Some? ==> r.value in secciones && r.value.nombre == nombre
    ensures r.None? ==> forall s :: s in secciones ==> s.nombre != nombre
  {
    if secciones == [] then None
    else if secciones[0].nombre == nombre then Some(secciones[0])
    else FindSection(secciones[1..], nombre)
  }

  /** `items.find(i => i.id === id)`. */
  function FindItem(items: seq<MedicionItem>, id: string): (r: Option<MedicionItem>)
    ensures r.Some? ==> r.value in items && r.value.id == id
    ensures r.None? ==> forall i :: i in items ==> i.id != id
  {
    if items == [] then None
    else if items[0].id == id then Some(items[0])
    else FindItem(items[1..], id)
  }

  /** `prevItem?.acumulado || 0` for the line of section `nombre` with this id. */
  function PreviousAcumulado(prev: Medicion, nombre: string, id: string): real
  {
    match FindSection(prev.secciones, nombre)
    case None => 0.0
    case Some(s) =>
      match FindItem(s.items, id)
      case None => 0.0
      case Some(i) => i.acumulado
  }

  function CarriedItem(item: BudgetItem, prev: Option<Medicion>, nombre: string): MedicionItem
  {
    if prev.Some? then
      var a := PreviousAcumulado(prev.value, nombre, item.id);
      MedicionItem(item.id, a, 0.0, a)
    else MedicionItem(item.id, 0.0, 0.0, 0.0)
  }

  function CarriedItems(items: seq<BudgetItem>, prev: Option<Medicion>, nombre: string): (r: seq<MedicionItem>)
    ensures |r| == |items| && forall j :: 0 <= j < |items| ==> r[j] == CarriedItem(items[j], prev, nombre)
  {
    if items == [] then [] else [CarriedItem(items[0], prev, nombre)] + CarriedItems(items[1..], prev, nombre)
  }

  /** `Object.entries(presupuestoData).map(...)`. */
  function CarriedSections(data: Groups<BudgetItem>, prev: Option<Medicion>): (r: seq<MedicionSection>)
    ensures |r| == |data|
    ensures forall i :: 0 <= i < |data| ==> r[i] == MedicionSection(data[i].tag, CarriedItems(data[i].items, prev, data[i].tag))
  {
    if data == [] then []
    else [MedicionSection(data[0].tag, CarriedItems(data[0].items, prev, data[0].tag))] + CarriedSections(data[1..], prev)
  }

  /** The effect that prepares the edited measurement: in display mode the initial one
      as it is; otherwise the initial one, for the current period, with the budget's
      sections carried forward from the previous measurement. */
  function Prepared(display: bool, initial: Medicion, mediciones: seq<Medicion>, urlPeriod: Option<string>,
                    data: Groups<BudgetItem>): Medicion
  {
    if display then initial
    else
      var periodo := CurrentPeriod(urlPeriod, initial.periodo);
      var prev := PreviousMedicion(mediciones, PeriodNumbers(periodo));
      initial.(periodo := periodo, secciones := CarriedSections(data, prev))
  }

  /** A line whose accumulated amount is its previous amount plus its present one. */
  predicate Consistent(secciones: seq<MedicionSection>)
  {
    forall i, j :: 0 <= i < |secciones| && 0 <= j < |secciones[i].items| ==>
      secciones[i].items[j].acumulado == secciones[i].items[j].anterior + secciones[i].items[j].presente
  }

  /** Carrying forward gives one section per budget section, one line per budget line with
      its id, present amount 0, and previous and accumulated amounts both equal to the
      previous measurement's accumulated amount for that section and id, or 0. */
  lemma PreparedSound(initial: Medicion, mediciones: seq<Medicion>, urlPeriod: Option<string>,
                      data: Groups<BudgetItem>, i: nat, j: nat)
    requires i < |data| && j < |data[i].items|
    ensures var m := Prepared(false, initial, mediciones, urlPeriod, data);
            var periodo := CurrentPeriod(urlPeriod, initial.periodo);
            var prev := PreviousMedicion(mediciones, PeriodNumbers(periodo));
            var line := m.secciones[i].items[j];
            var a := if prev.Some? then PreviousAcumulado(prev.value, data[i].tag, data[i].items[j].id) else 0.0;
            m.periodo == periodo && |m.secciones| == |data| && m.secciones[i].nombre == data[i].tag &&
            |m.secciones[i].items| == |data[i].items| &&
            line == MedicionItem(data[i].items[j].id, a, 0.0, a)
    ensures Consistent(Prepared(false, initial, mediciones, urlPeriod, data).secciones)
  {
  }

  // ---------------------------------------------------------------------------
  // Editing a line

  function EditItems(items: seq<MedicionItem>, itemId: string, presente: real): (r: seq<MedicionItem>)
    ensures |r| == |items|
    ensures forall j :: 0 <= j < |items| ==>
              r[j] == if items[j].id == itemId then items[j].(presente := presente, acumulado := items[j].anterior + presente)
                      else items[j]
  {
    if items == [] then []
    else
      var it := items[0];
      [if it.id == itemId then it.(presente := presente, acumulado := it.anterior + presente) else it]
      + EditItems(items[1..], itemId, presente)
  }

  /** The `map` over sections and items of `updateMedicion`. */
  function EditSections(secciones: seq<MedicionSection>, sectionName: string, itemId: string, presente: real)
    : (r: seq<MedicionSection>)
    ensures |r| == |secciones|
    ensures forall i :: 0 <= i < |secciones| ==>
              r[i] == if secciones[i].nombre != sectionName then secciones[i]
                      else secciones[i].(items := EditItems(secciones[i].items, itemId, presente))
  {
    if secciones == [] then []
    else
      var s := secciones[0];
      [if s.nombre != sectionName then s else s.(items := EditItems(s.items, itemId, presente))]
      + EditSections(secciones[1..], sectionName, itemId, presente)
  }

  /** `price * (pct / 100)`. */
  function Share(price: real, pct: real): real
  {
    price * (pct / 100.0)
  }

  /** `sectionItems.find(i => String(i.id) === item.id)`. */
  function FindBudgetItem(items: seq<BudgetItem>, id: string): (r: Option<BudgetItem>)
    ensures r.Some? ==> r.value in items && r.value.id == id
    ensures r.None? ==> forall b :: b in items ==> b.id != id
  {
    if items == [] then None
    else if items[0].id == id then Some(items[0])
    else FindBudgetItem(items[1..], id)
  }

  /** The contribution of the lines of one section to the present (`present`) or the
      previous advance, over the first `n` lines. */
  function LinesAdvance(items: seq<MedicionItem>, budget: seq<BudgetItem>, present: bool): real
  {
    if items == [] then 0.0
    else
      var n := |items| - 1;
      var it := items[n];
      LinesAdvance(items[..n], budget, present) +
      match FindBudgetItem(budget, it.id)
      case None => 0.0
      case Some(b) => Share(b.totalPrice, if present then it.presente else it.anterior)
  }

  function Advance(secciones: seq<MedicionSection>, data: Groups<BudgetItem>, present: bool): real
  {
    if secciones == [] then 0.0
    else
      var n := |secciones| - 1;
      Advance(secciones[..n], data, present) + LinesAdvance(secciones[n].items, GetOr(data, secciones[n].nombre), present)
  }

  /** `totalBudget`: the sum of `totalPrice` over every budget line. */
  function TotalBudget(data: Groups<BudgetItem>): real
  {
    if data == [] then 0.0 else TotalBudget(data[..|data| - 1]) + BudgetSum(data[|data| - 1].items)
  }

  function BudgetSum(items: seq<BudgetItem>): real
  {
    if items == [] then 0.0 else BudgetSum(items[..|items| - 1]) + items[|items| - 1].totalPrice
  }

  /** `x / totalBudget * 100`; a zero budget gives NaN or infinity (`None`). */
  function Percent(x: real, total: real): Option<real>
  {
    if total == 0.0 then None else Some(x / total * 100.0)
  }

  /** The two `forEach` loops of `updateMedicion` summing the present and previous advance. */
  method AdvanceTotals(secciones: seq<MedicionSection>, data: Groups<BudgetItem>)
    returns (currentTotal: real, previousTotal: real)
    ensures currentTotal == Advance(secciones, data, true)
    ensures previousTotal == Advance(secciones, data, false)
  {
    currentTotal, previousTotal := 0.0, 0.0;
    for i := 0 to |secciones|
      invariant currentTotal == Advance(secciones[..i], data, true)
      invariant previousTotal == Advance(secciones[..i], data, false)
    {
      var section := secciones[i];
      var sectionItems := GetOr(data, section.nombre);
      var c, p := SectionAdvance(section.items, sectionItems);
      assert secciones[..i + 1][..i] == secciones[..i];
      currentTotal, previousTotal := currentTotal + c, previousTotal + p;
    }
    assert secciones[..|secciones|] == secciones;
  }

  method SectionAdvance(items: seq<MedicionItem>, sectionItems: seq<BudgetItem>) returns (c: real, p: real)
    ensures c == LinesAdvance(items, sectionItems, true) && p == LinesAdvance(items, sectionItems, false)
  {
    c, p := 0.0, 0.0;
    for j := 0 to |items|
      invariant c == LinesAdvance(items[..j], sectionItems, true)
      invariant p == LinesAdvance(items[..j], sectionItems, false)
    {
      var item := items[j];
      assert items[..j + 1][..j] == items[..j];
      match FindBudgetItem(sectionItems, item.id)
      case Some(b) =>
        c := c + Share(b.totalPrice, item.presente);
        p := p + Share(b.totalPrice, item.anterior);
      case None =>
    }
    assert items[..|items|] == items;
  }

  /** The new measurement `updateMedicion` stores. */
  function Updated(m: Medicion, data: Groups<BudgetItem>, sectionName: string, itemId: string, presente: real): Medicion
  {
    var secciones := EditSections(m.secciones, sectionName, itemId, presente);
    var current := Advance(secciones, data, true);
    var previous := Advance(secciones, data, false);
    var total := TotalBudget(data);
    m.(secciones := secciones, avanceMedicion := Percent(current, total),
       avanceAcumulado := Percent(current + previous, total), presupuestoTotal := Some(total))
  }

  /** `updateMedicion`: nothing in display mode; otherwise the edited sections with the
      advance percentages of the whole budget. */
  method UpdateMedicion(display: bool, m: Medicion, data: Groups<BudgetItem>, sectionName: string,
                        itemId: string, presente: real) returns (r: Medicion)
    ensures display ==> r == m
    ensures !display ==> r == Updated(m, data, sectionName, itemId, presente)
  {
    if display {
      return m;
    }
    var newSecciones := EditSections(m.secciones, sectionName, itemId, presente);
    var currentTotal, previousTotal := AdvanceTotals(newSecciones, data);
    var accumulatedTotal := currentTotal + previousTotal;
    var totalBudget := TotalBudget(data);
    r := m.(secciones := newSecciones, avanceMedicion := Percent(currentTotal, totalBudget),
            avanceAcumulado := Percent(accumulatedTotal, totalBudget), presupuestoTotal := Some(totalBudget));
  }

  /** Only the lines with the id in the sections with the name change, and they get the new
      present amount with the accumulated amount following it. */
  lemma UpdateTouchesOnlyTarget(m: Medicion, data: Groups<BudgetItem>, sectionName: string, itemId: string,
                                presente: real, i: nat, j: nat)
    requires i < |m.secciones| && j < |m.secciones[i].items|
    ensures var r := Updated(m, data, sectionName, itemId, presente);
            var old_ := m.secciones[i].items[j];
            |r.secciones| == |m.secciones| && r.secciones[i].nombre == m.secciones[i].nombre &&
            |r.secciones[i].items| == |m.secciones[i].items| && r.periodo == m.periodo &&
            (m.secciones[i].nombre == sectionName && old_.id == itemId ==>
               r.secciones[i].items[j] == MedicionItem(old_.id, old_.anterior, presente, old_.anterior + presente)) &&
            (m.secciones[i].nombre != sectionName || old_.id != itemId ==> r.secciones[i].items[j] == old_)
  {
  }

  /** Editing keeps every line's accumulated amount equal to previous plus present. */
  lemma UpdateKeepsConsistent(m: Medicion, data: Groups<BudgetItem>, sectionName: string, itemId: string, presente: real)
    requires Consistent(m.secciones)
    ensures Consistent(Updated(m, data, sectionName, itemId, presente).secciones)
  {
    var r := EditSections(m.secciones, sectionName, itemId, presente);
    forall i, j | 0 <= i < |r| && 0 <= j < |r[i].items|
      ensures r[i].items[j].acumulado == r[i].items[j].anterior + r[i].items[j].presente
    {
      assert j < |m.secciones[i].items|;
    }
  }

  /** Entering the same present amount again changes nothing more. */
  lemma UpdateIdempotent(m: Medicion, data: Groups<BudgetItem>, sectionName: string, itemId: string, presente: real)
    ensures Updated(Updated(m, data, sectionName, itemId, presente), data, sectionName, itemId, presente) ==
            Updated(m, data, sectionName, itemId, presente)
  {
    var once := EditSections(m.secciones, sectionName, itemId, presente);
    var twice := EditSections(once, sectionName, itemId, presente);
    assert |twice| == |once|;
    forall i | 0 <= i < |once|
      ensures twice[i] == once[i]
    {
      if once[i].nombre == sectionName {
        var a := once[i].items;
        var b := EditItems(a, itemId, presente);
        assert |b| == |a|;
        forall j | 0 <= j < |a|
          ensures b[j] == a[j]
        {
        }
        assert b == a;
      }
    }
    assert twice == once;
  }

  /** Lines of a section with no present amount contribute nothing to the present advance. */
  lemma {:induction false} NoPresentNoAdvance(items: seq<MedicionItem>, budget: seq<BudgetItem>)
    requires forall j :: 0 <= j < |items| ==> items[j].presente == 0.0
    ensures LinesAdvance(items, budget, true) == 0.0
  {
    if items != [] {
      NoPresentNoAdvance(items[..|items| - 1], budget);
    }
  }

  /** Sections with no present amount anywhere have no present advance. */
  lemma {:induction false} NoPresentNoAdvanceAll(secciones: seq<MedicionSection>, data: Groups<BudgetItem>)
    requires forall i, j :: 0 <= i < |secciones| && 0 <= j < |secciones[i].items| ==> secciones[i].items[j].presente == 0.0
    ensures Advance(secciones, data, true) == 0.0
  {
    if secciones != [] {
      var n := |secciones| - 1;
      assert forall i :: 0 <= i < n ==> secciones[..n][i] == secciones[i];
      NoPresentNoAdvanceAll(secciones[..n], data);
      NoPresentNoAdvance(secciones[n].items, GetOr(data, secciones[n].nombre));
    }
  }

  /** A freshly carried-forward measurement has no present advance. */
  lemma CarriedHasNoPresentAdvance(data: Groups<BudgetItem>, prev: Option<Medicion>, budget: Groups<BudgetItem>)
    ensures Advance(CarriedSections(data, prev), budget, true) == 0.0
  {
    var s := CarriedSections(data, prev);
    forall i, j | 0 <= i < |s| && 0 <= j < |s[i].items|
      ensures s[i].items[j].presente == 0.0
    {
      assert s[i].items[j] == CarriedItem(data[i].items[j], prev, data[i].tag);
    }
    NoPresentNoAdvanceAll(s, budget);
  }

  // ---------------------------------------------------------------------------
  // Changing the period

  /** `handlePeriodChange(month + "-01")`. */
  function PeriodChanged(m: Medicion, month: string): Medicion
  {
    m.(periodo := month + "-01")
  }

  /** The chosen `YYYY-MM` month is read back as the period's month. */
  lemma PeriodChangeReadsBack(m: Medicion, month: string)
    requires |month| == 7
    ensures Take(PeriodChanged(m, month).periodo, 7) == month
    ensures PeriodNumbers(PeriodChanged(m, month).periodo) == PeriodNumbers(month)
    ensures PeriodChanged(m, month).secciones == m.secciones
  {
    assert (month + "-01")[..7] == month;
  }
}
