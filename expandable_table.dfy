// The expandable table of tags and their elements: building the rows from the fetched
// tags, collecting a subtree's ids, removing and duplicating rows, toggling the
// selection of a subtree, and editing a cell.

module ExpandableTable {
  import opened Strings
  import opened TableTree

  /** A fetched element; `prices` holds the prices as `String(price)` renders them. */
  datatype Element = Element(id: nat, name: string, unit: string, prices: seq<string>)

  /** A fetched tag; an absent `element_tags` is the empty list. */
  datatype Tag = Tag(id: nat, name: string, elements: seq<Element>)

  /** The price shown for an element: its last price, or `"0.00"` without prices. */
  function PriceText(el: Element): string
  {
    if |el.prices| > 0 then el.prices[|el.prices| - 1] else "0.00"
  }

  function AdaptElements(els: seq<Element>): (r: seq<Row>)
    ensures |r| == |els|
    ensures forall j :: 0 <= j < |els| ==>
              r[j] == Row(NatToString(els[j].id), els[j].name, els[j].unit, PriceText(els[j]), [])
  {
    if els == [] then []
    else [Row(NatToString(els[0].id), els[0].name, els[0].unit, PriceText(els[0]), [])] + AdaptElements(els[1..])
  }

  /** `adaptTagsToItems`: one top-level row per tag, with empty unit and price, and one
      sub-row per element. */
  function AdaptTags(tags: seq<Tag>): (r: seq<Row>)
    ensures |r| == |tags|
    ensures forall i :: 0 <= i < |tags| ==>
              r[i] == Row(NatToString(tags[i].id), tags[i].name, "", "", AdaptElements(tags[i].elements))
  {
    if tags == [] then []
    else [Row(NatToString(tags[0].id), tags[0].name, "", "", AdaptElements(tags[0].elements))] + AdaptTags(tags[1..])
  }

  /** The adapted table has two levels: its node count is the tags plus their elements,
      and an element row shows its last price or `"0.00"`. */
  lemma {:induction false} AdaptTagsSize(tags: seq<Tag>)
    ensures Size(AdaptTags(tags)) == |tags| + ElementCount(tags)
  {
    if tags != [] {
      var r := AdaptTags(tags);
      assert r[1..] == AdaptTags(tags[1..]);
      AdaptTagsSize(tags[1..]);
      LeafRowsSize(AdaptElements(tags[0].elements));
    }
  }

  function ElementCount(tags: seq<Tag>): nat
  {
    if tags == [] then 0 else |tags[0].elements| + ElementCount(tags[1..])
  }

  lemma {:induction false} LeafRowsSize(d: seq<Row>)
    requires forall j :: 0 <= j < |d| ==> d[j].subItems == []
    ensures Size(d) == |d|
  {
    if d != [] {
      assert Size(d[0].subItems) == 0;
      LeafRowsSize(d[1..]);
    }
  }

  lemma PriceTextLast(el: Element)
    ensures el.prices == [] ==> PriceText(el) == "0.00"
    ensures el.prices != [] ==> PriceText(el) == el.prices[|el.prices| - 1]
  {
  }

  function IdsOf(s: seq<Row>): (r: seq<string>)
    ensures |r| == |s|
  {
    if s == [] then [] else [s[0].id] + IdsOf(s[1..])
  }

  lemma {:induction false} IdsOfAt(s: seq<Row>, i: nat)
    requires i < |s|
    ensures IdsOf(s)[i] == s[i].id
  {
    if i > 0 {
      IdsOfAt(s[1..], i - 1);
    }
  }

  lemma {:induction false} IdsOfAppend(a: seq<Row>, b: seq<Row>)
    ensures IdsOf(a + b) == IdsOf(a) + IdsOf(b)
  {
    if a == [] {
      LeftEmpty(a, b);
    } else {
      ConsAppend(a, b);
      assert IdsOf(a + b) == [a[0].id] + IdsOf(a[1..] + b);
      IdsOfAppend(a[1..], b);
      AppendAssoc([a[0].id], IdsOf(a[1..]), IdsOf(b));
    }
  }

  lemma FlattenSnoc(d: seq<Row>, i: nat)
    requires i < |d|
    ensures FlattenData(d[..i + 1]) == FlattenData(d[..i]) + FlattenRow(d[i])
  {
    assert d[..i + 1] == d[..i] + [d[i]];
    FlattenAppend(d[..i], [d[i]]);
    assert [d[i]][1..] == [];
  }

  /** `collectAllIdsRecursive`: the ids of the subtree in pre-order. */
  method CollectAllIds(item: Row) returns (result: seq<string>)
    ensures result == IdsOf(FlattenRow(item))
    decreases item
  {
    result := [item.id];
    var subs := item.subItems;
    for i := 0 to |subs|
      invariant result == [item.id] + IdsOf(FlattenData(subs[..i]))
    {
      var more := CollectAllIds(subs[i]);
      CollectStep(subs, i);
      result := result + more;
    }
    CollectDone(item);
  }

  lemma CollectStep(subs: seq<Row>, i: nat)
    requires i < |subs|
    ensures IdsOf(FlattenData(subs[..i + 1])) == IdsOf(FlattenData(subs[..i])) + IdsOf(FlattenRow(subs[i]))
  {
    FlattenSnoc(subs, i);
    IdsOfAppend(FlattenData(subs[..i]), FlattenRow(subs[i]));
  }

  lemma CollectDone(item: Row)
    ensures [item.id] + IdsOf(FlattenData(item.subItems[..|item.subItems|])) == IdsOf(FlattenRow(item))
  {
    assert item.subItems[..|item.subItems|] == item.subItems;
    IdsOfAppend([item], FlattenData(item.subItems));
  }

  /** The collected ids start with the item's own and number the subtree's nodes. */
  lemma CollectedIdsShape(item: Row)
    ensures IdsOf(FlattenRow(item))[0] == item.id
    ensures |IdsOf(FlattenRow(item))| == SizeRow(item)
  {
    FlattenRowLength(item);
  }

  function RemoveRow(r: Row, ids: set<string>): Row
    decreases r, 1
  {
    r.(subItems := RemoveIds(r.subItems, ids))
  }

  /** `removeIdsFromData`: drops every row whose id is in `ids`, with its subtree, at
      every depth. */
  function RemoveIds(d: seq<Row>, ids: set<string>): seq<Row>
    decreases d, 0
  {
    if d == [] then []
    else (if d[0].id in ids then [] else [RemoveRow(d[0], ids)]) + RemoveIds(d[1..], ids)
  }

  predicate NoIdIn(d: seq<Row>, ids: set<string>)
  {
    forall k :: 0 <= k < |FlattenData(d)| ==> FlattenData(d)[k].id !in ids
  }

  lemma {:induction false} RemoveRowClean(r: Row, ids: set<string>)
    requires r.id !in ids
    ensures forall k :: 0 <= k < |FlattenRow(RemoveRow(r, ids))| ==> FlattenRow(RemoveRow(r, ids))[k].id !in ids
    decreases r, 1
  {
    RemoveIdsClean(r.subItems, ids);
  }

  /** No node of the result, at any depth, has an id in `ids`. */
  lemma {:induction false} RemoveIdsClean(d: seq<Row>, ids: set<string>)
    ensures NoIdIn(RemoveIds(d, ids), ids)
    decreases d, 0
  {
    if d != [] {
      RemoveIdsClean(d[1..], ids);
      var rest := RemoveIds(d[1..], ids);
      if d[0].id in ids {
        assert RemoveIds(d, ids) == rest;
      } else {
        RemoveRowClean(d[0], ids);
        assert RemoveIds(d, ids) == [RemoveRow(d[0], ids)] + rest;
        FlattenAppend([RemoveRow(d[0], ids)], rest);
        assert [RemoveRow(d[0], ids)][1..] == [];
      }
    }
  }

  lemma {:induction false} RemoveRowIdempotent(r: Row, ids: set<string>)
    ensures RemoveRow(RemoveRow(r, ids), ids) == RemoveRow(r, ids)
    decreases r, 1
  {
    RemoveIdsIdempotent(r.subItems, ids);
  }

  /** Removing twice removes nothing more. */
  lemma {:induction false} RemoveIdsIdempotent(d: seq<Row>, ids: set<string>)
    ensures RemoveIds(RemoveIds(d, ids), ids) == RemoveIds(d, ids)
    decreases d, 0
  {
    if d != [] {
      RemoveIdsIdempotent(d[1..], ids);
      var rest := RemoveIds(d[1..], ids);
      if d[0].id !in ids {
        RemoveRowIdempotent(d[0], ids);
        var once := [RemoveRow(d[0], ids)] + rest;
        assert RemoveIds(d, ids) == once;
        assert once[0] == RemoveRow(d[0], ids) && once[1..] == rest && once[0].id == d[0].id;
        assert RemoveIds(once, ids) == [RemoveRow(once[0], ids)] + RemoveIds(rest, ids);
      } else {
        assert RemoveIds(d, ids) == rest;
      }
    }
  }

  /** At the top level exactly the rows whose ids are not in `ids` survive, in order. */
  lemma {:induction false} RemoveIdsTopLevel(d: seq<Row>, ids: set<string>)
    ensures IdsOf(RemoveIds(d, ids)) == FilterOut(IdsOf(d), ids)
  {
    if d != [] {
      RemoveIdsTopLevel(d[1..], ids);
      var rest := RemoveIds(d[1..], ids);
      assert IdsOf(d) == [d[0].id] + IdsOf(d[1..]);
      assert IdsOf(d)[0] == d[0].id && IdsOf(d)[1..] == IdsOf(d[1..]);
      if d[0].id !in ids {
        assert RemoveIds(d, ids) == [RemoveRow(d[0], ids)] + rest;
        IdsOfAppend([RemoveRow(d[0], ids)], rest);
      } else {
        assert RemoveIds(d, ids) == rest;
      }
    }
  }

  function FilterOut(xs: seq<string>, ids: set<string>): seq<string>
  {
    if xs == [] then [] else (if xs[0] in ids then [] else [xs[0]]) + FilterOut(xs[1..], ids)
  }

  /** `cloneItem`: the copy gets a fresh id from `copyId` (the random suffix), and so do
      all its descendants. */
  function CloneRow(r: Row, copyId: string -> string): Row
    decreases r, 1
  {
    r.(id := copyId(r.id), subItems := CloneAll(r.subItems, copyId))
  }

  function CloneAll(d: seq<Row>, copyId: string -> string): (r: seq<Row>)
    ensures |r| == |d|
    decreases d, 0
  {
    if d == [] then [] else [CloneRow(d[0], copyId)] + CloneAll(d[1..], copyId)
  }

  lemma {:induction false} CloneRowSize(r: Row, copyId: string -> string)
    ensures SizeRow(CloneRow(r, copyId)) == SizeRow(r)
    decreases r, 1
  {
    CloneAllSize(r.subItems, copyId);
  }

  /** A clone has the shape of its original: as many nodes, the same cells but the id. */
  lemma {:induction false} CloneAllSize(d: seq<Row>, copyId: string -> string)
    ensures Size(CloneAll(d, copyId)) == Size(d)
    decreases d, 0
  {
    if d != [] {
      CloneRowSize(d[0], copyId);
      CloneAllSize(d[1..], copyId);
      var c := CloneAll(d, copyId);
      assert c[0] == CloneRow(d[0], copyId) && c[1..] == CloneAll(d[1..], copyId);
    }
  }

  /** One clone per selected node of a pre-order node list. */
  function ClonesOf(nodes: seq<Row>, selected: set<string>, copyId: string -> string): seq<Row>
  {
    if nodes == [] then []
    else (if nodes[0].id in selected then [CloneRow(nodes[0], copyId)] else []) + ClonesOf(nodes[1..], selected, copyId)
  }

  lemma {:induction false} ClonesOfAppend(a: seq<Row>, b: seq<Row>, selected: set<string>, copyId: string -> string)
    ensures ClonesOf(a + b, selected, copyId) == ClonesOf(a, selected, copyId) + ClonesOf(b, selected, copyId)
  {
    if a == [] {
      LeftEmpty(a, b);
    } else {
      var head := if a[0].id in selected then [CloneRow(a[0], copyId)] else [];
      ConsAppend(a, b);
      assert ClonesOf(a + b, selected, copyId) == head + ClonesOf(a[1..] + b, selected, copyId);
      ClonesOfAppend(a[1..], b, selected, copyId);
      AppendAssoc(head, ClonesOf(a[1..], selected, copyId), ClonesOf(b, selected, copyId));
    }
  }

  /** The clones number the selected nodes. */
  lemma {:induction false} ClonesCount(nodes: seq<Row>, selected: set<string>, copyId: string -> string)
    ensures |ClonesOf(nodes, selected, copyId)| == |FilterIn(IdsOf(nodes), selected)|
  {
    if nodes != [] {
      assert IdsOf(nodes)[1..] == IdsOf(nodes[1..]);
      ClonesCount(nodes[1..], selected, copyId);
    }
  }

  function FilterIn(xs: seq<string>, ids: set<string>): seq<string>
  {
    if xs == [] then [] else (if xs[0] in ids then [xs[0]] else []) + FilterIn(xs[1..], ids)
  }

  /** `traverse`: visits the rows in pre-order, pushing a clone of each selected one. */
  method Traverse(items: seq<Row>, selected: set<string>, copyId: string -> string) returns (pushed: seq<Row>)
    ensures pushed == ClonesOf(FlattenData(items), selected, copyId)
    decreases items
  {
    pushed := [];
    for i := 0 to |items|
      invariant pushed == ClonesOf(FlattenData(items[..i]), selected, copyId)
    {
      var it := items[i];
      var own: seq<Row> := if it.id in selected then [CloneRow(it, copyId)] else [];
      var below := Traverse(it.subItems, selected, copyId);
      FlattenSnoc(items, i);
      ClonesOfAppend(FlattenData(items[..i]), FlattenRow(it), selected, copyId);
      ClonesOfAppend([it], FlattenData(it.subItems), selected, copyId);
      assert ClonesOf([it], selected, copyId) == own;
      pushed := pushed + own + below;
    }
    assert items[..|items|] == items;
  }

  /** `duplicateSelected`: the original rows, then one clone per selected node at any
      depth, in pre-order. */
  method DuplicateSelected(data: seq<Row>, selected: set<string>, copyId: string -> string) returns (newData: seq<Row>)
    ensures |data| <= |newData| && newData[..|data|] == data
    ensures newData == data + ClonesOf(FlattenData(data), selected, copyId)
  {
    var pushed := Traverse(data, selected, copyId);
    newData := data + pushed;
    assert newData[..|data|] == data;
  }

  /** `handleToggleSelect`'s decision: select when some id of the subtree is unselected. */
  predicate ShouldSelect(allIds: seq<string>, selected: set<string>)
  {
    exists i :: 0 <= i < |allIds| && allIds[i] !in selected
  }

  function SelectedAfter(allIds: seq<string>, selected: set<string>): set<string>
  {
    if ShouldSelect(allIds, selected) then selected + AsSet(allIds) else selected - AsSet(allIds)
  }

  function AsSet(xs: seq<string>): (r: set<string>)
    ensures forall x :: x in r <==> x in xs
  {
    if xs == [] then {} else AsSet(xs[..|xs| - 1]) + {xs[|xs| - 1]}
  }

  /** `newExpanded[id] = true` for each id, in order. */
  function Expand(expanded: map<string, bool>, ids: seq<string>): map<string, bool>
  {
    if ids == [] then expanded else Expand(expanded, ids[..|ids| - 1])[ids[|ids| - 1] := true]
  }

  /** `delete newExpanded[id]` for each id, in order. */
  function Collapse(expanded: map<string, bool>, ids: seq<string>): map<string, bool>
  {
    if ids == [] then expanded else Collapse(expanded, ids[..|ids| - 1]) - {ids[|ids| - 1]}
  }

  function ExpandedAfter(allIds: seq<string>, selected: set<string>, expanded: map<string, bool>): map<string, bool>
  {
    if ShouldSelect(allIds, selected) then Expand(expanded, allIds) else Collapse(expanded, allIds)
  }

  /** Expanding adds every id with `true` and keeps the other entries. */
  lemma {:induction false} ExpandMeaning(expanded: map<string, bool>, ids: seq<string>, x: string)
    ensures x in Expand(expanded, ids) <==> x in expanded || x in ids
    ensures x in ids ==> Expand(expanded, ids)[x] == true
    ensures x !in ids && x in expanded ==> Expand(expanded, ids)[x] == expanded[x]
  {
    if ids != [] {
      ExpandMeaning(expanded, ids[..|ids| - 1], x);
      assert x in ids <==> x in ids[..|ids| - 1] || x == ids[|ids| - 1] by {
        assert ids == ids[..|ids| - 1] + [ids[|ids| - 1]];
      }
    }
  }

  /** Collapsing removes every id and keeps the other entries. */
  lemma {:induction false} CollapseMeaning(expanded: map<string, bool>, ids: seq<string>, x: string)
    ensures x in Collapse(expanded, ids) <==> x in expanded && x !in ids
    ensures x in Collapse(expanded, ids) ==> Collapse(expanded, ids)[x] == expanded[x]
  {
    if ids != [] {
      CollapseMeaning(expanded, ids[..|ids| - 1], x);
      assert x in ids <==> x in ids[..|ids| - 1] || x == ids[|ids| - 1] by {
        assert ids == ids[..|ids| - 1] + [ids[|ids| - 1]];
      }
    }
  }

  /** `handleToggleSelect`: select and expand the whole subtree, or deselect and
      collapse all of it. */
  method ToggleSelect(item: Row, selected: set<string>, expanded: map<string, bool>)
    returns (newSelected: set<string>, newExpanded: map<string, bool>)
    ensures newSelected == SelectedAfter(IdsOf(FlattenRow(item)), selected)
    ensures newExpanded == ExpandedAfter(IdsOf(FlattenRow(item)), selected, expanded)
  {
    var allIds := CollectAllIds(item);
    var shouldSelect := exists i :: 0 <= i < |allIds| && allIds[i] !in selected;
    if shouldSelect {
      newSelected, newExpanded := SelectAll(allIds, selected, expanded);
    } else {
      newSelected, newExpanded := DeselectAll(allIds, selected, expanded);
    }
  }

  /** The `forEach` that adds each id to the selection and expands it. */
  method SelectAll(allIds: seq<string>, selected: set<string>, expanded: map<string, bool>)
    returns (newSelected: set<string>, newExpanded: map<string, bool>)
    ensures newSelected == selected + AsSet(allIds) && newExpanded == Expand(expanded, allIds)
  {
    newSelected := selected;
    newExpanded := expanded;
    for i := 0 to |allIds|
      invariant newSelected == selected + AsSet(allIds[..i])
      invariant newExpanded == Expand(expanded, allIds[..i])
    {
      assert allIds[..i + 1][..i] == allIds[..i];
      newSelected := newSelected + {allIds[i]};
      newExpanded := newExpanded[allIds[i] := true];
    }
    assert allIds[..|allIds|] == allIds;
  }

  /** The `forEach` that removes each id from the selection and collapses it. */
  method DeselectAll(allIds: seq<string>, selected: set<string>, expanded: map<string, bool>)
    returns (newSelected: set<string>, newExpanded: map<string, bool>)
    ensures newSelected == selected - AsSet(allIds) && newExpanded == Collapse(expanded, allIds)
  {
    newSelected := selected;
    newExpanded := expanded;
    for i := 0 to |allIds|
      invariant newSelected == selected - AsSet(allIds[..i])
      invariant newExpanded == Collapse(expanded, allIds[..i])
    {
      assert allIds[..i + 1][..i] == allIds[..i];
      newSelected := newSelected - {allIds[i]};
      newExpanded := newExpanded - {allIds[i]};
    }
    assert allIds[..|allIds|] == allIds;
  }

  /** After a toggle the subtree is either all selected or all unselected, and the ids
      outside it keep their selection. A subtree with nothing selected goes back to
      the original selection after two toggles. */
  lemma ToggleSound(allIds: seq<string>, selected: set<string>)
    ensures var after := SelectedAfter(allIds, selected);
            (forall i :: 0 <= i < |allIds| ==> (allIds[i] in after <==> ShouldSelect(allIds, selected))) &&
            (forall x :: x !in allIds ==> (x in after <==> x in selected))
    ensures allIds != [] && (forall i :: 0 <= i < |allIds| ==> allIds[i] !in selected) ==>
              SelectedAfter(allIds, SelectedAfter(allIds, selected)) == selected
  {
    var after := SelectedAfter(allIds, selected);
    if allIds != [] && (forall i :: 0 <= i < |allIds| ==> allIds[i] !in selected) {
      assert ShouldSelect(allIds, selected) by { assert allIds[0] !in selected; }
      assert !ShouldSelect(allIds, after);
    }
  }

  function SetCell(r: Row, field: Column, value: string): Row
  {
    match field
    case Id => r.(id := value)
    case Insumos => r.(insumos := value)
    case Unidad => r.(unidad := value)
    case Precio => r.(precio := value)
  }

  /** `updateItem` inside `handleEdit` on one row: a matching row gets the value and is
      not searched further; otherwise the search goes on in its sub-items. */
  function EditRow(r: Row, id: string, field: Column, value: string): Row
    decreases r, 1
  {
    if r.id == id then SetCell(r, field, value) else r.(subItems := EditRows(r.subItems, id, field, value))
  }

  function EditRows(d: seq<Row>, id: string, field: Column, value: string): (r: seq<Row>)
    ensures |r| == |d|
    decreases d, 0
  {
    if d == [] then [] else [EditRow(d[0], id, field, value)] + EditRows(d[1..], id, field, value)
  }

  lemma {:induction false} EditRowsAt(d: seq<Row>, id: string, field: Column, value: string, i: nat)
    requires i < |d|
    ensures EditRows(d, id, field, value)[i] == EditRow(d[i], id, field, value)
  {
    if i > 0 {
      EditRowsAt(d[1..], id, field, value, i - 1);
    }
  }

  /** A matched row holds the new value in the field and keeps its sub-items as they
      were; the edit keeps the node count. */
  lemma EditMatched(r: Row, id: string, field: Column, value: string)
    requires r.id == id
    ensures Cell(EditRow(r, id, field, value), field) == value
    ensures EditRow(r, id, field, value).subItems == r.subItems
  {
  }

  lemma {:induction false} EditRowSize(r: Row, id: string, field: Column, value: string)
    ensures SizeRow(EditRow(r, id, field, value)) == SizeRow(r)
    decreases r, 1
  {
    if r.id != id {
      EditRowsSize(r.subItems, id, field, value);
    }
  }

  lemma {:induction false} EditRowsSize(d: seq<Row>, id: string, field: Column, value: string)
    ensures Size(EditRows(d, id, field, value)) == Size(d)
    decreases d, 0
  {
    if d != [] {
      EditRowSize(d[0], id, field, value);
      EditRowsSize(d[1..], id, field, value);
      var e := EditRows(d, id, field, value);
      assert e[0] == EditRow(d[0], id, field, value) && e[1..] == EditRows(d[1..], id, field, value);
    }
  }

  lemma {:induction false} EditRowIdempotent(r: Row, id: string, field: Column, value: string)
    requires field != Id
    ensures EditRow(EditRow(r, id, field, value), id, field, value) == EditRow(r, id, field, value)
    decreases r, 1
  {
    if r.id != id {
      EditRowsIdempotent(r.subItems, id, field, value);
    }
  }

  /** Editing a cell other than the id twice is editing it once. */
  lemma {:induction false} EditRowsIdempotent(d: seq<Row>, id: string, field: Column, value: string)
    requires field != Id
    ensures EditRows(EditRows(d, id, field, value), id, field, value) == EditRows(d, id, field, value)
    decreases d, 0
  {
    if d != [] {
      EditRowIdempotent(d[0], id, field, value);
      EditRowsIdempotent(d[1..], id, field, value);
      var e := EditRows(d, id, field, value);
      assert e[0] == EditRow(d[0], id, field, value) && e[1..] == EditRows(d[1..], id, field, value);
    }
  }
}
