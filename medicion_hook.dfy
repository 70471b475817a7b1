// The measurement editor's state hook: the grouped measurement lines (`data`), the
// history of saved measurements (`mediciones`), carrying the latest measurement forward,
// viewing an older one, editing the present quantity and building the save payload.

module MedicionHook {
  import opened Strings
  import opened Grouped
  import opened JsNumbers
  import opened Calculations

  /** A measurement line: the base item plus previous, present and accumulated amounts. */
  datatype MItem = MItem(id: string, name: string, category: string,
                         anterior: real, presente: real, acumulado: real)

  /** One line of a saved measurement. */
  datatype Entry = Entry(itemId: string, anterior: real, presente: real, acumulado: real)

  datatype MedicionData = MedicionData(fecha: string, items: seq<Entry>)

  datatype Medicion = Medicion(id: int, data: MedicionData)

  datatype Result<T> = Ok(value: T) | Err(message: string)

  /** The fields an edit can name. */
  datatype MKey = Id | Name | Category | Anterior | Presente | Acumulado

  /** `items.find(mi => String(mi.itemId) === String(id))`. */
  function FindEntry(entries: seq<Entry>, id: string): (r: Option<Entry>)
    ensures r.Some? ==> r.value in entries && r.value.itemId == id
    ensures r.None? ==> forall e :: e in entries ==> e.itemId != id
  {
    if entries == [] then None
    else if entries[0].itemId == id then Some(entries[0])
    else FindEntry(entries[1..], id)
  }

  /** `found?.acumulado || 0` and friends. */
  function AcumuladoOf(e: Option<Entry>): real
  {
    if e.Some? then e.value.acumulado else 0.0
  }

  /** One line carried forward from the latest measurement. */
  function CarryItem(it: MItem, last: Medicion): MItem
  {
    var a := AcumuladoOf(FindEntry(last.data.items, it.id));
    it.(anterior := a, presente := 0.0, acumulado := a)
  }

  function CarryItems(items: seq<MItem>, last: Medicion): (r: seq<MItem>)
    ensures |r| == |items| && forall j :: 0 <= j < |items| ==> r[j] == CarryItem(items[j], last)
  {
    if items == [] then [] else [CarryItem(items[0], last)] + CarryItems(items[1..], last)
  }

  /** The carry-forward `map` applied to every section. */
  function CarryForward(g: Groups<MItem>, last: Medicion): (r: Groups<MItem>)
    ensures |r| == |g|
    ensures forall i :: 0 <= i < |g| ==> r[i] == Section(g[i].tag, CarryItems(g[i].items, last))
  {
    if g == [] then [] else [Section(g[0].tag, CarryItems(g[0].items, last))] + CarryForward(g[1..], last)
  }

  /** One line showing a chosen measurement. */
  function DetailItem(it: MItem, m: Medicion): MItem
  {
    match FindEntry(m.data.items, it.id)
    case None => it.(anterior := 0.0, presente := 0.0, acumulado := 0.0)
    case Some(e) => it.(anterior := e.anterior, presente := e.presente, acumulado := e.acumulado)
  }

  function DetailItems(items: seq<MItem>, m: Medicion): (r: seq<MItem>)
    ensures |r| == |items| && forall j :: 0 <= j < |items| ==> r[j] == DetailItem(items[j], m)
  {
    if items == [] then [] else [DetailItem(items[0], m)] + DetailItems(items[1..], m)
  }

  function Detail(g: Groups<MItem>, m: Medicion): (r: Groups<MItem>)
    ensures |r| == |g|
    ensures forall i :: 0 <= i < |g| ==> r[i] == Section(g[i].tag, DetailItems(g[i].items, m))
  {
    if g == [] then [] else [Section(g[0].tag, DetailItems(g[0].items, m))] + Detail(g[1..], m)
  }

  /** `findIndex` on the `String` form of the ids. */
  function FindLine(items: seq<MItem>, id: string): (r: Option<nat>)
    ensures r.Some? ==> r.value < |items| && items[r.value].id == id &&
                        forall j :: 0 <= j < r.value ==> items[j].id != id
    ensures r.None? ==> forall j :: 0 <= j < |items| ==> items[j].id != id
  {
    if items == [] then None
    else if items[0].id == id then Some(0)
    else match FindLine(items[1..], id)
      case None => None
      case Some(k) => Some(k + 1)
  }

  /** The edited copy of a line: only `presente` has an effect. */
  function EditLine(it: MItem, key: MKey, value: string): MItem
  {
    if key == Presente then
      var v := ParseFloatOrZero(value);
      it.(presente := v, acumulado := MedicionAcumulado(Some(it.anterior), Some(v)))
    else it
  }

  /** The data after `updateData(tag, itemId, key, value)`; the section must exist. */
  function UpdateResult(g: Groups<MItem>, tag: string, itemId: string, key: MKey, value: string): Groups<MItem>
    requires Get(g, tag).Some?
  {
    var items := Get(g, tag).value;
    match FindLine(items, itemId)
    case None => g
    case Some(k) => Put(g, tag, items[k := EditLine(items[k], key, value)])
  }

  /** One payload line of `saveMedicion`. */
  function PayloadEntry(it: MItem): Entry
  {
    Entry(it.id, it.anterior, it.presente, MedicionAcumulado(Some(it.anterior), Some(it.presente)))
  }

  function PayloadEntries(items: seq<MItem>): (r: seq<Entry>)
    ensures |r| == |items| && forall j :: 0 <= j < |items| ==> r[j] == PayloadEntry(items[j])
  {
    if items == [] then [] else [PayloadEntry(items[0])] + PayloadEntries(items[1..])
  }

  /** Some line has a positive present amount. */
  function HasChanges(items: seq<MItem>): bool
  {
    items != [] && (items[0].presente > 0.0 || HasChanges(items[1..]))
  }

  const NoChangesMessage := "Debe ingresar al menos un valor en la columna \"Presente\" antes de guardar."

  /** The outcome of `saveMedicion` before the request is sent; `fecha` is the clock. */
  function SavePayload(g: Groups<MItem>, fecha: string): Result<MedicionData>
  {
    var all := Flatten(g);
    if !HasChanges(all) then Err(NoChangesMessage)
    else Ok(MedicionData(fecha, PayloadEntries(all)))
  }

  /** Each `forEach` pass over the section keys, reassigning each section in turn. */
  method CarrySections(g: Groups<MItem>, last: Medicion) returns (newData: Groups<MItem>)
    ensures newData == CarryForward(g, last)
  {
    newData := g;
    for i := 0 to |g|
      invariant |newData| == |g|
      invariant forall j :: 0 <= j < i ==> newData[j] == Section(g[j].tag, CarryItems(g[j].items, last))
      invariant forall j :: i <= j < |g| ==> newData[j] == g[j]
    {
      newData := newData[i := Section(newData[i].tag, CarryItems(newData[i].items, last))];
    }
  }

  method DetailSections(g: Groups<MItem>, m: Medicion) returns (newData: Groups<MItem>)
    ensures newData == Detail(g, m)
  {
    newData := g;
    for i := 0 to |g|
      invariant |newData| == |g|
      invariant forall j :: 0 <= j < i ==> newData[j] == Section(g[j].tag, DetailItems(g[j].items, m))
      invariant forall j :: i <= j < |g| ==> newData[j] == g[j]
    {
      newData := newData[i := Section(newData[i].tag, DetailItems(newData[i].items, m))];
    }
  }

  class MedicionEditor {
    var data: Groups<MItem>
    var mediciones: seq<Medicion>
    var error: Option<string>

    constructor(initialData: Groups<MItem>)
      ensures data == initialData && mediciones == [] && error == None
    {
      data := initialData;
      mediciones := [];
      error := None;
    }

    /** The successful part of `fetchMediciones`: the history is stored and, when it is
        not empty, its first (latest) measurement is carried forward. */
    method FetchedMediciones(fetched: seq<Medicion>)
      modifies this
      ensures mediciones == fetched && error == old(error)
      ensures data == if fetched != [] then CarryForward(old(data), fetched[0]) else old(data)
    {
      mediciones := fetched;
      if |fetched| > 0 {
        data := CarrySections(data, fetched[0]);
      }
    }

    method ResetToLatestMedicion()
      modifies this
      ensures mediciones == old(mediciones) && error == old(error)
      ensures data == if old(mediciones) != [] then CarryForward(old(data), old(mediciones)[0]) else old(data)
    {
      if |mediciones| == 0 {
        return;
      }
      data := CarrySections(data, mediciones[0]);
    }

    method ViewMedicionDetail(m: Medicion)
      modifies this
      ensures mediciones == old(mediciones) && error == old(error)
      ensures data == Detail(old(data), m)
    {
      data := DetailSections(data, m);
    }

    method UpdateData(tag: string, itemId: string, key: MKey, value: string)
      requires Get(data, tag).Some?
      modifies this
      ensures mediciones == old(mediciones) && error == old(error)
      ensures data == UpdateResult(old(data), tag, itemId, key, value)
    {
      var items := Get(data, tag).value;
      var found := FindLine(items, itemId);
      if found.None? {
        return;
      }
      var k := found.value;
      var item := EditLine(items[k], key, value);
      data := Put(data, tag, items[k := item]);
    }

    /** `saveMedicion` up to the request: the payload, or the validation error stored. */
    method SaveMedicion(fecha: string) returns (r: Result<MedicionData>)
      modifies this
      ensures r == SavePayload(old(data), fecha)
      ensures data == old(data) && mediciones == old(mediciones)
      ensures error == if r.Err? then Some(r.message) else old(error)
    {
      r := SavePayload(data, fecha);
      if r.Err? {
        error := Some(r.message);
      }
    }
  }

  /** Carrying forward, line by line: previous and accumulated amounts become the
      latest measurement's accumulated amount for that id (0 if none), the present
      amount is 0, and the identity of the line and its section stay. */
  lemma CarryForwardSound(g: Groups<MItem>, last: Medicion, i: nat, j: nat)
    requires i < |g| && j < |g[i].items|
    ensures var r := CarryForward(g, last);
            var x := g[i].items[j];
            var a := AcumuladoOf(FindEntry(last.data.items, x.id));
            r[i].tag == g[i].tag && j < |r[i].items| &&
            r[i].items[j] == MItem(x.id, x.name, x.category, a, 0.0, a)
  {
  }

  /** A line whose id the measurement does not mention starts from 0. */
  lemma CarryUnknownIsZero(it: MItem, last: Medicion)
    requires forall e :: e in last.data.items ==> e.itemId != it.id
    ensures CarryItem(it, last).anterior == 0.0 && CarryItem(it, last).acumulado == 0.0
  {
    assert FindEntry(last.data.items, it.id).None?;
  }

  /** Carrying forward twice from the same measurement is carrying forward once. */
  lemma {:induction false} CarryForwardIdempotent(g: Groups<MItem>, last: Medicion)
    ensures CarryForward(CarryForward(g, last), last) == CarryForward(g, last)
  {
    var r := CarryForward(g, last);
    forall i | 0 <= i < |g|
      ensures CarryItems(r[i].items, last) == r[i].items
    {
      CarryItemsIdempotent(g[i].items, last);
    }
  }

  lemma CarryItemsIdempotent(items: seq<MItem>, last: Medicion)
    ensures CarryItems(CarryItems(items, last), last) == CarryItems(items, last)
  {
  }

  /** Viewing a measurement shows its three amounts for each line it mentions and 0 for
      the others. */
  lemma DetailSound(g: Groups<MItem>, m: Medicion, i: nat, j: nat)
    requires i < |g| && j < |g[i].items|
    ensures var x := Detail(g, m)[i].items[j];
            x.id == g[i].items[j].id && x.name == g[i].items[j].name &&
            match FindEntry(m.data.items, g[i].items[j].id)
            case Some(e) => x.anterior == e.anterior && x.presente == e.presente && x.acumulado == e.acumulado
            case None => x.anterior == 0.0 && x.presente == 0.0 && x.acumulado == 0.0
  {
  }

  /** An unknown item leaves the data as it was. */
  lemma UpdateUnknownIsNoOp(g: Groups<MItem>, tag: string, itemId: string, key: MKey, value: string)
    requires Get(g, tag).Some?
    requires forall y :: y in Get(g, tag).value ==> y.id != itemId
    ensures UpdateResult(g, tag, itemId, key, value) == g
  {
    assert FindLine(Get(g, tag).value, itemId).None?;
  }

  /** Only `presente` has an effect: any other key writes the same line back. */
  lemma UpdateOtherKeyIsNoOp(g: Groups<MItem>, tag: string, itemId: string, key: MKey, value: string)
    requires Get(g, tag).Some? && key != Presente
    ensures UpdateResult(g, tag, itemId, key, value) == g
  {
    var items := Get(g, tag).value;
    match FindLine(items, itemId)
    case None =>
    case Some(k) =>
      assert items[k := items[k]] == items;
      var t := IndexOfTag(g, tag).value;
      assert g[t] == Section(tag, items);
      assert g[t := Section(tag, items)] == g;
  }

  /** Editing `presente` writes `parseFloat(value) || 0` into the line at the found
      index, with `acumulado = anterior + presente`; the rest of the section stays. */
  lemma UpdatePresente(g: Groups<MItem>, tag: string, itemId: string, value: string, k: nat)
    requires Get(g, tag).Some? && FindLine(Get(g, tag).value, itemId) == Some(k)
    ensures var items := Get(g, tag).value;
            var after := Get(UpdateResult(g, tag, itemId, Presente, value), tag);
            var v := ParseFloatOrZero(value);
            after == Some(items[k := items[k].(presente := v, acumulado := items[k].anterior + v)])
  {
    var items := Get(g, tag).value;
    GetPut(g, tag, items[k := EditLine(items[k], Presente, value)], tag);
  }

  lemma {:induction false} HasChangesIff(items: seq<MItem>)
    ensures HasChanges(items) <==> exists j :: 0 <= j < |items| && items[j].presente > 0.0
  {
    if items != [] {
      HasChangesIff(items[1..]);
      if HasChanges(items[1..]) {
        var j :| 0 <= j < |items[1..]| && items[1..][j].presente > 0.0;
        assert items[j + 1].presente > 0.0;
      }
      if exists j :: 0 <= j < |items| && items[j].presente > 0.0 {
        var j :| 0 <= j < |items| && items[j].presente > 0.0;
        if j > 0 {
          assert items[1..][j - 1].presente > 0.0;
        }
      }
    }
  }

  /** Saving fails exactly when no line has a positive present amount. */
  lemma SaveNeedsChanges(g: Groups<MItem>, fecha: string)
    ensures SavePayload(g, fecha).Err? <==>
            forall j :: 0 <= j < |Flatten(g)| ==> Flatten(g)[j].presente <= 0.0
  {
    HasChangesIff(Flatten(g));
  }

  /** The payload has one entry per line, in order, with `acumulado = anterior + presente`. */
  lemma SavePayloadEntries(g: Groups<MItem>, fecha: string, j: nat)
    requires SavePayload(g, fecha).Ok? && j < |Flatten(g)|
    ensures var p := SavePayload(g, fecha).value;
            var x := Flatten(g)[j];
            p.fecha == fecha && |p.items| == |Flatten(g)| &&
            p.items[j] == Entry(x.id, x.anterior, x.presente, x.anterior + x.presente)
  {
  }
}
