// The catalog script: rows of a semicolon-separated catalog are read in order; a row
// without a unit is a tag header, any other row an element of the current tag. The
// collected tags, elements and element-to-tag links become the script's three inserts.

module CatalogScript {
  import opened Strings

  type Row = seq<string>

  /** An element row kept under tag `tag`. */
  datatype Element = Element(code: string, name: string, unit: string, tag: string)

  /** One entry of the `tags` dict, in insertion order. */
  datatype TagEntry = TagEntry(name: string, id: nat)

  /** The loop variables: the dict of tags, the element list, and `current_tag`. */
  datatype Catalog = Catalog(tags: seq<TagEntry>, elements: seq<Element>, currentTag: Option<string>)

  const Empty: Catalog := Catalog([], [], None)

  /** `if not row or all(not cell.strip() for cell in row)`. */
  predicate BlankRow(row: Row)
  {
    forall i :: 0 <= i < |row| ==> Trim(row[i]) == ""
  }

  /** The names in the dict, in insertion order. */
  function Names(tags: seq<TagEntry>): (r: seq<string>)
    ensures |r| == |tags| && forall i :: 0 <= i < |tags| ==> r[i] == tags[i].name
  {
    if tags == [] then [] else [tags[0].name] + Names(tags[1..])
  }

  /** `tags[name]`; `None` is the KeyError of a missing name. */
  function TagId(tags: seq<TagEntry>, name: string): (r: Option<nat>)
    ensures r.Some? <==> name in Names(tags)
  {
    if tags == [] then None
    else if tags[0].name == name then Some(tags[0].id)
    else TagId(tags[1..], name)
  }

  /** `if current_tag:` — `None` and the empty name are both falsy. */
  predicate Truthy(tag: Option<string>)
  {
    tag.Some? && tag.value != ""
  }

  /** What a row is to the loop: skipped (blank), an error (a single non-blank cell, so
      `row[1]` raises IndexError), a tag header (no or blank third field), or an item. */
  datatype RowKind = Skip | Short | Header(name: string) | Item(code: string, name: string, unit: string)

  /** The stripping of `code`, `name` and `unit` and the header test. */
  function Classify(row: Row): (k: RowKind)
    ensures k.Skip? <==> BlankRow(row)
    ensures k.Short? <==> !BlankRow(row) && |row| < 2
    ensures k.Header? ==> |row| >= 2 && k.name == Trim(row[1]) && (|row| == 2 || Trim(row[2]) == "")
    ensures k.Item? ==> |row| > 2 && k == Item(Trim(row[0]), Trim(row[1]), Trim(row[2])) && k.unit != ""
  {
    if BlankRow(row) then Skip
    else if |row| < 2 then Short
    else
      var unit := if |row| > 2 then Trim(row[2]) else "";
      if unit == "" then Header(Trim(row[1])) else Item(Trim(row[0]), Trim(row[1]), unit)
  }

  /** The dict after `if current_tag not in tags: tags[current_tag] = len(tags) + 1`. */
  function AddTag(tags: seq<TagEntry>, name: string): seq<TagEntry>
  {
    if name in Names(tags) then tags else tags + [TagEntry(name, |tags| + 1)]
  }

  /** One pass of the loop body; `None` for the IndexError. */
  function Step(c: Catalog, kind: RowKind): Option<Catalog>
  {
    match kind
    case Skip => Some(c)
    case Short => None
    case Header(name) => Some(Catalog(AddTag(c.tags, name), c.elements, Some(name)))
    case Item(code, name, unit) =>
      if Truthy(c.currentTag) then Some(c.(elements := c.elements + [Element(code, name, unit, c.currentTag.value)]))
      else Some(c)
  }

  /** The loop of `process_csv` over the rows, from the empty dict and list. */
  function Process(rows: seq<Row>): Option<Catalog>
  {
    if rows == [] then Some(Empty)
    else
      match Process(rows[..|rows| - 1])
      case None => None
      case Some(c) => Step(c, Classify(rows[|rows| - 1]))
  }

  /** The reading loop. */
  method ProcessRows(rows: seq<Row>) returns (r: Option<Catalog>)
    ensures r == Process(rows)
  {
    var tags: seq<TagEntry> := [];
    var elements: seq<Element> := [];
    var currentTag: Option<string> := None;
    var i := 0;
    while i < |rows|
      invariant 0 <= i <= |rows|
      invariant Process(rows[..i]) == Some(Catalog(tags, elements, currentTag))
    {
      assert rows[..i + 1][..i] == rows[..i];
      var kind := Classify(rows[i]);
      match kind {
        case Skip =>
        case Short =>
          ProcessFailed(rows, i + 1);
          return None;
        case Header(name) =>
          currentTag := Some(name);
          if name !in Names(tags) {
            tags := tags + [TagEntry(name, |tags| + 1)];
          }
        case Item(code, name, unit) =>
          if Truthy(currentTag) {
            elements := elements + [Element(code, name, unit, currentTag.value)];
          }
      }
      i := i + 1;
    }
    assert rows[..|rows|] == rows;
    r := Some(Catalog(tags, elements, currentTag));
  }

  /** Once a row has failed, so has every longer run. */
  lemma {:induction false} ProcessFailed(rows: seq<Row>, k: nat)
    requires k <= |rows| && Process(rows[..k]) == None
    ensures Process(rows) == None
    decreases |rows| - k
  {
    if k < |rows| {
      assert rows[..k + 1][..k] == rows[..k];
      ProcessFailed(rows, k + 1);
    } else {
      assert rows[..k] == rows;
    }
  }

  /** The catalog invariant: ids are 1, 2, … in insertion order with no name twice, and
      every element's tag and the current tag are keys of the dict. */
  ghost predicate WellFormed(c: Catalog)
  {
    (forall i :: 0 <= i < |c.tags| ==> c.tags[i].id == i + 1) &&
    (forall i, j :: 0 <= i < j < |c.tags| ==> c.tags[i].name != c.tags[j].name) &&
    (forall i :: 0 <= i < |c.elements| ==> c.elements[i].tag in Names(c.tags) && c.elements[i].tag != "") &&
    (c.currentTag.Some? ==> c.currentTag.value in Names(c.tags))
  }

  lemma {:induction false} TagIdAt(tags: seq<TagEntry>, i: nat)
    requires i < |tags| && forall a, b :: 0 <= a < b < |tags| ==> tags[a].name != tags[b].name
    ensures TagId(tags, tags[i].name) == Some(tags[i].id)
  {
    if i > 0 {
      TagIdAt(tags[1..], i - 1);
    }
  }

  lemma TagIdAppend(tags: seq<TagEntry>, e: TagEntry, name: string)
    ensures TagId(tags + [e], name) == if name in Names(tags) then TagId(tags, name)
                                      else if name == e.name then Some(e.id) else None
    decreases |tags|
  {
    if tags != [] {
      assert (tags + [e])[1..] == tags[1..] + [e];
      TagIdAppend(tags[1..], e, name);
    }
  }

  lemma NamesAppend(tags: seq<TagEntry>, e: TagEntry)
    ensures Names(tags + [e]) == Names(tags) + [e.name]
  {
  }

  /** A new tag header keeps the invariant. */
  lemma AddTagKeepsWellFormed(c: Catalog, name: string)
    requires WellFormed(c)
    ensures WellFormed(Catalog(AddTag(c.tags, name), c.elements, Some(name)))
  {
    if name !in Names(c.tags) {
      var e := TagEntry(name, |c.tags| + 1);
      NamesAppend(c.tags, e);
      var ts := c.tags + [e];
      assert forall i :: 0 <= i < |c.tags| ==> ts[i] == c.tags[i];
      forall i | 0 <= i < |c.elements|
        ensures c.elements[i].tag in Names(ts)
      {
        assert c.elements[i].tag in Names(c.tags);
      }
      if c.currentTag.Some? {
        assert c.currentTag.value in Names(c.tags);
      }
    }
  }

  /** Every pass of the loop body keeps the invariant. */
  lemma StepKeepsWellFormed(c: Catalog, kind: RowKind)
    requires WellFormed(c) && Step(c, kind).Some?
    ensures WellFormed(Step(c, kind).value)
  {
    match kind
    case Skip =>
    case Short =>
    case Header(name) => AddTagKeepsWellFormed(c, name);
    case Item(code, name, unit) =>
      if Truthy(c.currentTag) {
        var es := c.elements + [Element(code, name, unit, c.currentTag.value)];
        assert forall i :: 0 <= i < |c.elements| ==> es[i] == c.elements[i];
      }
  }

  /** The catalog the script ends with, when it ends, satisfies the invariant. */
  lemma {:induction false} ProcessWellFormed(rows: seq<Row>)
    requires Process(rows).Some?
    ensures WellFormed(Process(rows).value)
  {
    if rows != [] {
      var n := |rows| - 1;
      ProcessWellFormed(rows[..n]);
      StepKeepsWellFormed(Process(rows[..n]).value, Classify(rows[n]));
    }
  }

  /** Blank rows change nothing; a non-blank row with one cell is an error. */
  lemma BlankAndShortRows(c: Catalog, row: Row)
    ensures BlankRow(row) ==> Step(c, Classify(row)) == Some(c)
    ensures !BlankRow(row) && |row| < 2 ==> Step(c, Classify(row)).None?
  {
  }

  /** A header row (third field missing or blank) makes its name the current tag; a new
      name gets id "tags so far + 1", a repeated one keeps the dict as it was. The
      element list is untouched. */
  lemma HeaderRow(c: Catalog, row: Row)
    requires !BlankRow(row) && |row| >= 2 && (|row| == 2 || Trim(row[2]) == "")
    ensures var name := Trim(row[1]);
            var r := Step(c, Classify(row));
            r.Some? && r.value.currentTag == Some(name) && r.value.elements == c.elements &&
            TagId(r.value.tags, name) == (if name in Names(c.tags) then TagId(c.tags, name) else Some(|c.tags| + 1)) &&
            (name in Names(c.tags) ==> r.value.tags == c.tags) &&
            (name !in Names(c.tags) ==> |r.value.tags| == |c.tags| + 1)
  {
    var name := Trim(row[1]);
    if name !in Names(c.tags) {
      TagIdAppend(c.tags, TagEntry(name, |c.tags| + 1), name);
    }
  }

  /** A row with a unit is appended as an element of the current tag when that tag is
      set and non-empty, and dropped otherwise (before any header, or after a header
      with an empty name). The dict and the current tag are untouched. */
  lemma ElementRow(c: Catalog, row: Row)
    requires |row| > 2 && Trim(row[2]) != ""
    ensures var r := Step(c, Classify(row));
            r.Some? && r.value.tags == c.tags && r.value.currentTag == c.currentTag &&
            r.value.elements ==
              (if Truthy(c.currentTag)
               then c.elements + [Element(Trim(row[0]), Trim(row[1]), Trim(row[2]), c.currentTag.value)]
               else c.elements)
  {
    assert !BlankRow(row) by { assert Trim(row[2]) != ""; }
  }

  // ---------------------------------------------------------------------------
  // The three inserts

  datatype TagValue = TagValue(id: nat, name: string)
  datatype ElementValue = ElementValue(name: string, unit: string)
  datatype Mapping = Mapping(elementId: nat, tagId: nat)

  /** `[(tag_id, tag) for tag, tag_id in tags.items()]`. */
  function TagValues(tags: seq<TagEntry>): (r: seq<TagValue>)
    ensures |r| == |tags| && forall i :: 0 <= i < |tags| ==> r[i] == TagValue(tags[i].id, tags[i].name)
  {
    if tags == [] then [] else [TagValue(tags[0].id, tags[0].name)] + TagValues(tags[1..])
  }

  /** `[(name, unit) for _, name, unit, _ in elements]`. */
  function ElementValues(elements: seq<Element>): (r: seq<ElementValue>)
    ensures |r| == |elements| && forall i :: 0 <= i < |elements| ==> r[i] == ElementValue(elements[i].name, elements[i].unit)
  {
    if elements == [] then [] else [ElementValue(elements[0].name, elements[0].unit)] + ElementValues(elements[1..])
  }

  /** `[(i + 1, tags[tag]) for i, (_, _, _, tag) in enumerate(elements)]`; every tag
      must be a key of the dict, or the lookup raises KeyError. */
  function Mappings(tags: seq<TagEntry>, elements: seq<Element>): (r: seq<Mapping>)
    requires forall i :: 0 <= i < |elements| ==> elements[i].tag in Names(tags)
    ensures |r| == |elements| &&
            forall i :: 0 <= i < |elements| ==> r[i] == Mapping(i + 1, TagId(tags, elements[i].tag).value)
  {
    if elements == [] then []
    else
      var n := |elements| - 1;
      Mappings(tags, elements[..n]) + [Mapping(n + 1, TagId(tags, elements[n].tag).value)]
  }

  /** The script's output never fails its dict lookups: the tag tuples come in
      first-seen order with ids 1, 2, …, and the link of the i-th element carries
      element id i + 1 and the id that was written for its tag. */
  lemma OutputShape(rows: seq<Row>, i: nat)
    requires Process(rows).Some?
    ensures var c := Process(rows).value;
            WellFormed(c) &&
            (forall j :: 0 <= j < |c.tags| ==> TagValues(c.tags)[j].id == j + 1) &&
            (i < |c.elements| ==>
               exists j :: 0 <= j < |c.tags| &&
                 TagValues(c.tags)[j] == TagValue(Mappings(c.tags, c.elements)[i].tagId, c.elements[i].tag) &&
                 Mappings(c.tags, c.elements)[i].elementId == i + 1)
  {
    var c := Process(rows).value;
    ProcessWellFormed(rows);
    if i < |c.elements| {
      var tag := c.elements[i].tag;
      assert tag in Names(c.tags);
      var j :| 0 <= j < |c.tags| && Names(c.tags)[j] == tag;
      TagIdAt(c.tags, j);
      assert TagValues(c.tags)[j] == TagValue(Mappings(c.tags, c.elements)[i].tagId, tag);
    }
  }
}
