// The measurement list query's response transform: each saved measurement becomes a
// summary with its month and its per-item measurements keyed by item id.

module MedicionesQuery {
  datatype ResponseItem = ResponseItem(id: string, anterior: real, presente: real, acumulado: real)

  datatype ResponseSection = ResponseSection(nombre: string, items: seq<ResponseItem>)

  datatype MedicionResponse = MedicionResponse(id: int, periodo: string, secciones: seq<ResponseSection>)

  datatype Measurement = Measurement(monthlyProgress: real, cumulativePrevious: real, cumulativeCurrent: real)

  datatype Summary = Summary(id: int, month: string, measurements: map<string, Measurement>)

  function MeasurementOf(item: ResponseItem): Measurement
  {
    Measurement(item.presente, item.anterior, item.acumulado)
  }

  /** Every item of every section, in section order. */
  function AllItems(secciones: seq<ResponseSection>): seq<ResponseItem>
  {
    if secciones == [] then [] else AllItems(secciones[..|secciones| - 1]) + secciones[|secciones| - 1].items
  }

  /** `acc[item.id] = ...` over the items in order, starting from `{}`. */
  function Keyed(items: seq<ResponseItem>): map<string, Measurement>
  {
    if items == [] then map[]
    else
      var n := |items| - 1;
      Keyed(items[..n])[items[n].id := MeasurementOf(items[n])]
  }

  /** `transformMedicionResponse`. */
  function Transform(data: seq<MedicionResponse>): (r: seq<Summary>)
    ensures |r| == |data|
  {
    if data == [] then []
    else [Summary(data[0].id, data[0].periodo, Keyed(AllItems(data[0].secciones)))] + Transform(data[1..])
  }

  /** The `reduce` with its inner `forEach`, writing into the accumulator object. */
  method CollectMeasurements(secciones: seq<ResponseSection>) returns (acc: map<string, Measurement>)
    ensures acc == Keyed(AllItems(secciones))
  {
    acc := map[];
    for i := 0 to |secciones|
      invariant acc == Keyed(AllItems(secciones[..i]))
    {
      assert secciones[..i + 1][..i] == secciones[..i];
      acc := KeySection(acc, AllItems(secciones[..i]), secciones[i].items);
    }
    assert secciones[..|secciones|] == secciones;
  }

  /** The inner `forEach` over one section's items. */
  method KeySection(acc0: map<string, Measurement>, ghost before: seq<ResponseItem>, items: seq<ResponseItem>)
    returns (acc: map<string, Measurement>)
    requires acc0 == Keyed(before)
    ensures acc == Keyed(before + items)
  {
    acc := acc0;
    assert before + items[..0] == before;
    for j := 0 to |items|
      invariant acc == Keyed(before + items[..j])
    {
      assert (before + items[..j + 1])[..|before| + j] == before + items[..j];
      acc := acc[items[j].id := MeasurementOf(items[j])];
    }
    assert items[..|items|] == items;
  }

  /** One summary per response, in order, with the response's id and its period as month. */
  lemma {:induction false} TransformAt(data: seq<MedicionResponse>, i: nat)
    requires i < |data|
    ensures Transform(data)[i] == Summary(data[i].id, data[i].periodo, Keyed(AllItems(data[i].secciones)))
  {
    if i > 0 {
      TransformAt(data[1..], i - 1);
    }
  }

  /** An id is a key exactly when some item has it. */
  lemma {:induction false} KeyedDomain(items: seq<ResponseItem>, k: string)
    ensures k in Keyed(items) <==> exists j :: 0 <= j < |items| && items[j].id == k
  {
    if items != [] {
      var n := |items| - 1;
      KeyedDomain(items[..n], k);
      if k in Keyed(items[..n]) {
        var j :| 0 <= j < n && items[..n][j].id == k;
        assert items[j].id == k;
      }
      if exists j :: 0 <= j < |items| && items[j].id == k {
        var j :| 0 <= j < |items| && items[j].id == k;
        if j < n {
          assert items[..n][j].id == k;
        }
      }
    }
  }

  /** A key holds the measurement of the last item with that id: later duplicates
      overwrite earlier ones. */
  lemma {:induction false} LastWins(items: seq<ResponseItem>, j: nat)
    requires j < |items|
    requires forall l :: j < l < |items| ==> items[l].id != items[j].id
    ensures items[j].id in Keyed(items) && Keyed(items)[items[j].id] == MeasurementOf(items[j])
  {
    var n := |items| - 1;
    if j < n {
      LastWins(items[..n], j);
    }
  }

  /** No sections, no measurements. */
  lemma NoSectionsNoMeasurements(id: int, periodo: string)
    ensures Transform([MedicionResponse(id, periodo, [])]) == [Summary(id, periodo, map[])]
  {
  }
}
