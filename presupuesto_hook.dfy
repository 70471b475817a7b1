// The budget editor's state hook: one `data` field holding the grouped budget lines,
// replaced by each edit, row insertion and row deletion.

module PresupuestoHook {
  import opened Strings
  import opened Grouped
  import opened JsNumbers
  import opened Calculations

  /** `keyof PresupuestoItem`: the fields an edit can target. */
  datatype Key = Id | Code | Name | Unit | Quantity | UnitPrice | Total | Tag

  /** `String(it.id)`: a text id as it is, a numeric one (left by an edit of the id
      field) as JavaScript writes the number. */
  function IdText(t: Text): Option<string>
  {
    match t
    case Str(s) => Some(s)
    case Num(x) => IntegerText(x)
  }

  /** `String(it.id) === String(itemId)`, with `id` the text of `itemId`. */
  predicate HasId(it: Item, id: string)
  {
    IdText(it.id) == Some(id)
  }

  /** `items.findIndex(it => String(it.id) === String(itemId))`. */
  function FindById(items: seq<Item>, id: string): (r: Option<nat>)
    ensures r.Some? ==> r.value < |items| && HasId(items[r.value], id) &&
                        forall j :: 0 <= j < r.value ==> !HasId(items[j], id)
    ensures r.None? ==> forall j :: 0 <= j < |items| ==> !HasId(items[j], id)
  {
    if items == [] then None
    else if HasId(items[0], id) then Some(0)
    else match FindById(items[1..], id)
      case None => None
      case Some(k) => Some(k + 1)
  }

  /** `{ ...item, [key]: v }`. */
  function WithKey(it: Item, key: Key, v: real): Item
  {
    match key
    case Id => it.(id := Num(v))
    case Code => it.(code := Num(v))
    case Name => it.(name := Num(v))
    case Unit => it.(unit := Num(v))
    case Quantity => it.(quantity := v)
    case UnitPrice => it.(unitPrice := v)
    case Total => it.(total := v)
    case Tag => it.(tag := Some(Num(v)))
  }

  /** The value of the field `key` names; `None` for an absent `tag`. */
  function Field(it: Item, key: Key): Option<Text>
  {
    match key
    case Id => Some(it.id)
    case Code => Some(it.code)
    case Name => Some(it.name)
    case Unit => Some(it.unit)
    case Quantity => Some(Num(it.quantity))
    case UnitPrice => Some(Num(it.unitPrice))
    case Total => Some(Num(it.total))
    case Tag => it.tag
  }

  /** The two lines agree on every field an edit can target other than `key`. */
  predicate AgreeExcept(a: Item, b: Item, key: Key)
  {
    forall k: Key :: k != key ==> Field(a, k) == Field(b, k)
  }

  /** The edited line: the field set to the number and, for quantity or price only,
      `totalPrice` recomputed; a text or id field simply holds the number. */
  function Edited(it: Item, key: Key, v: real): (r: Item)
    ensures Field(r, key) == Some(Num(v))
    ensures AgreeExcept(r, it, key)
    ensures r.parcial == it.parcial && r.rubro == it.rubro
    ensures key == Quantity || key == UnitPrice ==> r.totalPrice == Some(LineTotal(r))
    ensures key != Quantity && key != UnitPrice ==> r.totalPrice == it.totalPrice
  {
    var u := WithKey(it, key, v);
    if key == Quantity || key == UnitPrice then u.(totalPrice := Some(LineTotal(u))) else u
  }

  /** One line after the pass over all sections; `sectionTotal` is its section's total. */
  function RefreshItem(it: Item, sectionTotal: real, grandTotal: real): Item
  {
    var t := LineTotal(it);
    it.(totalPrice := Some(t), parcial := Some(Percentage(t, grandTotal)),
        rubro := Some(Percentage(sectionTotal, grandTotal)))
  }

  function RefreshItems(items: seq<Item>, sectionTotal: real, grandTotal: real): (r: seq<Item>)
    ensures |r| == |items|
    ensures forall j :: 0 <= j < |items| ==> r[j] == RefreshItem(items[j], sectionTotal, grandTotal)
  {
    if items == [] then []
    else [RefreshItem(items[0], sectionTotal, grandTotal)] + RefreshItems(items[1..], sectionTotal, grandTotal)
  }

  function RefreshSection(s: Section<Item>, grandTotal: real): Section<Item>
  {
    Section(s.tag, RefreshItems(s.items, SectionTotal(s.items), grandTotal))
  }

  function RefreshAll(g: Groups<Item>, grandTotal: real): (r: Groups<Item>)
    ensures |r| == |g|
    ensures forall i :: 0 <= i < |g| ==> r[i] == RefreshSection(g[i], grandTotal)
  {
    if g == [] then [] else [RefreshSection(g[0], grandTotal)] + RefreshAll(g[1..], grandTotal)
  }

  /** The data after `updateData(tag, itemId, key, value)`, with `grandTotal` the value the
      callback captured. */
  function UpdateResult(g: Groups<Item>, tag: string, itemId: string, key: Key, value: string,
                        grandTotal: real): Groups<Item>
  {
    var items := GetOr(g, tag);
    match FindById(items, itemId)
    case None => g
    case Some(k) => RefreshAll(Put(g, tag, EditedAt(items, k, key, NumberOrZero(value))), grandTotal)
  }

  /** The section's lines with the `k`-th one edited. */
  function EditedAt(items: seq<Item>, k: nat, key: Key, v: real): seq<Item>
    requires k < |items|
  {
    items[..k] + [Edited(items[k], key, v)] + items[k + 1..]
  }

  /** `addElementToSection`: the element goes last, the section is created if absent. */
  function AddElement(g: Groups<Item>, tag: string, element: Item): Groups<Item>
  {
    Put(g, tag, GetOr(g, tag) + [element])
  }

  /** `filter(item => String(item.id) !== String(itemId))`. */
  function Without(items: seq<Item>, id: string): (r: seq<Item>)
    ensures |r| <= |items|
  {
    if items == [] then []
    else (if HasId(items[0], id) then [] else [items[0]]) + Without(items[1..], id)
  }

  /** `deleteRow`: an absent section becomes an empty one. */
  function DeleteRow(g: Groups<Item>, tag: string, itemId: string): Groups<Item>
  {
    Put(g, tag, Without(GetOr(g, tag), itemId))
  }

  /** The `forEach` over the section keys, reassigning each section in turn. */
  method RefreshSections(base: Groups<Item>, grandTotal: real) returns (newData: Groups<Item>)
    ensures newData == RefreshAll(base, grandTotal)
  {
    newData := base;
    var i := 0;
    while i < |newData|
      invariant 0 <= i <= |newData| == |base|
      invariant forall j :: 0 <= j < i ==> newData[j] == RefreshSection(base[j], grandTotal)
      invariant forall j :: i <= j < |base| ==> newData[j] == base[j]
    {
      newData := newData[i := RefreshSection(newData[i], grandTotal)];
      i := i + 1;
    }
  }

  class BudgetEditor {
    var data: Groups<Item>

    constructor(initialData: Groups<Item>)
      ensures data == initialData
    {
      data := initialData;
    }

    method UpdateData(tag: string, itemId: string, key: Key, value: string, grandTotal: real)
      modifies this
      ensures data == UpdateResult(old(data), tag, itemId, key, value, grandTotal)
    {
      var items := GetOr(data, tag);
      match FindById(items, itemId) {
        case None =>
        case Some(k) =>
          data := RefreshSections(Put(data, tag, EditedAt(items, k, key, NumberOrZero(value))), grandTotal);
      }
    }

    method AddElementToSection(tag: string, element: Item)
      modifies this
      ensures data == AddElement(old(data), tag, element)
    {
      var section := GetOr(data, tag);
      data := Put(data, tag, section + [element]);
    }

    method DeleteRowFrom(tag: string, itemId: string)
      modifies this
      ensures data == DeleteRow(old(data), tag, itemId)
    {
      data := Put(data, tag, Without(GetOr(data, tag), itemId));
    }
  }

  /** An unknown item id (or a tag with no items) leaves the data as it was. */
  lemma UpdateUnknownIsNoOp(g: Groups<Item>, tag: string, itemId: string, key: Key, value: string,
                            grandTotal: real)
    requires forall j :: 0 <= j < |GetOr(g, tag)| ==> !HasId(GetOr(g, tag)[j], itemId)
    ensures UpdateResult(g, tag, itemId, key, value, grandTotal) == g
  {
    assert FindById(GetOr(g, tag), itemId).None?;
  }

  lemma {:induction false} RefreshKeepsLines(items: seq<Item>, st: real, gt: real)
    ensures SectionTotal(RefreshItems(items, st, gt)) == SectionTotal(items)
    decreases |items|
  {
    if items != [] {
      var n := |items| - 1;
      var r := RefreshItems(items, st, gt);
      assert r[..n] == RefreshItems(items[..n], st, gt);
      RefreshKeepsLines(items[..n], st, gt);
    }
  }

  /** After the pass every line carries its own total, its share of the grand total and
      its section's share, the section total being that of the refreshed lines. */
  lemma RefreshAllSound(g: Groups<Item>, gt: real, i: nat, j: nat)
    requires i < |g| && j < |g[i].items|
    ensures var s := RefreshAll(g, gt)[i];
            var x := s.items[j];
            s.tag == g[i].tag && |s.items| == |g[i].items| &&
            x.totalPrice == Some(LineTotal(x)) &&
            x.parcial == Some(Percentage(LineTotal(x), gt)) &&
            x.rubro == Some(Percentage(SectionTotal(s.items), gt))
  {
    RefreshKeepsLines(g[i].items, SectionTotal(g[i].items), gt);
  }

  /** A successful update keeps every key in place and the length of every section. */
  lemma UpdateKeepsShape(g: Groups<Item>, tag: string, itemId: string, key: Key, value: string,
                         grandTotal: real, k: nat)
    requires FindById(GetOr(g, tag), itemId) == Some(k)
    ensures var r := UpdateResult(g, tag, itemId, key, value, grandTotal);
            Tags(r) == Tags(g) && |GetOr(r, tag)| == |GetOr(g, tag)|
  {
    var edited := UpdatedSection(g, tag, itemId, key, value, grandTotal, k);
  }

  /** A successful update sets the targeted field to `Number(value) || 0` and keeps the
      line's other fields, its id among them unless the id is the field edited. */
  lemma UpdateSetsField(g: Groups<Item>, tag: string, itemId: string, key: Key, value: string,
                        grandTotal: real, k: nat)
    requires FindById(GetOr(g, tag), itemId) == Some(k)
    ensures var xs := GetOr(UpdateResult(g, tag, itemId, key, value, grandTotal), tag);
            k < |xs| && Field(xs[k], key) == Some(Num(NumberOrZero(value))) &&
            (key != Id ==> HasId(xs[k], itemId)) &&
            AgreeExcept(xs[k], GetOr(g, tag)[k], key)
  {
    var items := GetOr(g, tag);
    var e := Edited(items[k], key, NumberOrZero(value));
    var edited := UpdatedSection(g, tag, itemId, key, value, grandTotal, k);
    assert edited[k] == e;
    var st := SectionTotal(edited);
    RefreshKeepsFields(e, st, grandTotal);
    if key != Id {
      assert Field(e, Id) == Field(items[k], Id);
    }
  }

  /** The pass over the sections leaves every field an edit can target as it was. */
  lemma RefreshKeepsFields(it: Item, st: real, gt: real)
    ensures RefreshItem(it, st, gt).id == it.id
    ensures forall k: Key :: Field(RefreshItem(it, st, gt), k) == Field(it, k)
  {
  }

  /** The updated section is the edited list, refreshed; the keys stay as they were. */
  lemma UpdatedSection(g: Groups<Item>, tag: string, itemId: string, key: Key, value: string,
                       grandTotal: real, k: nat) returns (edited: seq<Item>)
    requires FindById(GetOr(g, tag), itemId) == Some(k)
    ensures var items := GetOr(g, tag);
            edited == items[..k] + [Edited(items[k], key, NumberOrZero(value))] + items[k + 1..]
    ensures var r := UpdateResult(g, tag, itemId, key, value, grandTotal);
            Tags(r) == Tags(g) && GetOr(r, tag) == RefreshItems(edited, SectionTotal(edited), grandTotal)
  {
    var items := GetOr(g, tag);
    edited := EditedAt(items, k, key, NumberOrZero(value));
    var p := Put(g, tag, edited);
    var r := RefreshAll(p, grandTotal);
    assert UpdateResult(g, tag, itemId, key, value, grandTotal) == r;
    var t := IndexOfTag(g, tag).value;
    assert tag in Tags(g) by { assert Tags(g)[t] == tag; }
    TagsPut(g, tag, edited);
    RefreshAllTags(p, grandTotal);
    IndexOfTagSameTags(r, p, tag);
    IndexOfTagSameTags(p, g, tag);
    assert p[t].items == edited;
  }

  lemma RefreshAllTags(g: Groups<Item>, gt: real)
    ensures Tags(RefreshAll(g, gt)) == Tags(g)
  {
    var r := RefreshAll(g, gt);
    assert forall i :: 0 <= i < |g| ==> Tags(r)[i] == Tags(g)[i];
  }

  /** The new element is last in its section and no other section changes. */
  lemma AddElementAppends(g: Groups<Item>, tag: string, element: Item, other: string)
    ensures Get(AddElement(g, tag, element), tag) == Some(GetOr(g, tag) + [element])
    ensures other != tag ==> Get(AddElement(g, tag, element), other) == Get(g, other)
  {
    GetPut(g, tag, GetOr(g, tag) + [element], other);
  }

  /** The lines kept are exactly those with another id. */
  lemma {:induction false} WithoutSound(items: seq<Item>, id: string)
    ensures forall x :: x in Without(items, id) <==> x in items && !HasId(x, id)
  {
    if items != [] {
      WithoutSound(items[1..], id);
      assert items == [items[0]] + items[1..];
    }
  }

  /** Filtering goes line by line: it distributes over concatenation, so the lines kept
      stay in their original order. */
  lemma {:induction false} WithoutAppend(a: seq<Item>, b: seq<Item>, id: string)
    ensures Without(a + b, id) == Without(a, id) + Without(b, id)
    decreases |a|
  {
    if a == [] {
      assert a + b == b;
    } else {
      assert (a + b)[0] == a[0] && (a + b)[1..] == a[1..] + b;
      WithoutAppend(a[1..], b, id);
    }
  }

  /** Every line without the id survives: filtering keeps the count of such lines. */
  lemma {:induction false} WithoutKeepsOthers(items: seq<Item>, id: string, y: Item)
    requires !HasId(y, id)
    ensures multiset(Without(items, id))[y] == multiset(items)[y]
  {
    if items != [] {
      WithoutKeepsOthers(items[1..], id, y);
      assert items == [items[0]] + items[1..];
    }
  }

  /** `deleteRow` changes only its own section, which then holds no line with the id. */
  lemma DeleteRowRemoves(g: Groups<Item>, tag: string, itemId: string, other: string)
    ensures Get(DeleteRow(g, tag, itemId), tag) == Some(Without(GetOr(g, tag), itemId))
    ensures Get(g, tag).None? ==> Get(DeleteRow(g, tag, itemId), tag) == Some([])
    ensures other != tag ==> Get(DeleteRow(g, tag, itemId), other) == Get(g, other)
  {
    GetPut(g, tag, Without(GetOr(g, tag), itemId), other);
  }
}
