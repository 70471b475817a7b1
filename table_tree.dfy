// The expandable table's rows: a forest of items with sub-items, its pre-order
// flattening, and the recursive column sort used for display.

module TableTree {
  import Strings

  /** A table row. An absent `subItems` and an empty one behave alike everywhere in
      the table, so both are the empty sequence here. */
  datatype Row = Row(id: string, insumos: string, unidad: string, precio: string, subItems: seq<Row>)

  datatype Column = Id | Insumos | Unidad | Precio

  datatype Direction = Asc | Desc

  function Cell(r: Row, c: Column): string
  {
    match c
    case Id => r.id
    case Insumos => r.insumos
    case Unidad => r.unidad
    case Precio => r.precio
  }

  /** A row followed by all of its descendants, in pre-order. */
  function FlattenRow(r: Row): seq<Row>
    decreases r, 1
  {
    [r] + FlattenData(r.subItems)
  }

  /** `flattenData`. */
  function FlattenData(d: seq<Row>): seq<Row>
    decreases d, 0
  {
    if d == [] then [] else FlattenRow(d[0]) + FlattenData(d[1..])
  }

  /** Number of nodes of a subtree. */
  function SizeRow(r: Row): nat
    decreases r, 1
  {
    1 + Size(r.subItems)
  }

  function Size(d: seq<Row>): nat
    decreases d, 0
  {
    if d == [] then 0 else SizeRow(d[0]) + Size(d[1..])
  }

  lemma {:induction false} FlattenRowLength(r: Row)
    ensures |FlattenRow(r)| == SizeRow(r)
    decreases r, 1
  {
    FlattenLength(r.subItems);
  }

  /** The flattening holds every node exactly once: its length is the node count. */
  lemma {:induction false} FlattenLength(d: seq<Row>)
    ensures |FlattenData(d)| == Size(d)
    decreases d, 0
  {
    if d != [] {
      FlattenRowLength(d[0]);
      FlattenLength(d[1..]);
    }
  }

  lemma {:induction false} FlattenAppend(a: seq<Row>, b: seq<Row>)
    ensures FlattenData(a + b) == FlattenData(a) + FlattenData(b)
    ensures Size(a + b) == Size(a) + Size(b)
  {
    if a == [] {
      Strings.LeftEmpty(a, b);
    } else {
      Strings.ConsAppend(a, b);
      assert FlattenData(a + b) == FlattenRow(a[0]) + FlattenData(a[1..] + b);
      FlattenAppend(a[1..], b);
      Strings.AppendAssoc(FlattenRow(a[0]), FlattenData(a[1..]), FlattenData(b));
    }
  }

  /** Row `i` sits in the flattening at the position after the nodes of the rows before
      it, immediately followed by its descendants. */
  lemma PreOrderPosition(d: seq<Row>, i: nat)
    requires i < |d|
    ensures var p := Size(d[..i]);
            p + SizeRow(d[i]) <= |FlattenData(d)| &&
            FlattenData(d)[p] == d[i] &&
            FlattenData(d)[p + 1 .. p + SizeRow(d[i])] == FlattenData(d[i].subItems)
  {
    assert d == d[..i] + ([d[i]] + d[i + 1..]);
    FlattenAppend(d[..i], [d[i]] + d[i + 1..]);
    FlattenLength(d[..i]);
    FlattenRowLength(d[i]);
    assert ([d[i]] + d[i + 1..])[1..] == d[i + 1..];
    FlattenLength(d);
  }

  /** JavaScript's `<` on strings: lexicographic by character code. */
  predicate StrLess(a: string, b: string)
  {
    if a == [] then b != []
    else if b == [] then false
    else if a[0] != b[0] then a[0] < b[0]
    else StrLess(a[1..], b[1..])
  }

  lemma {:induction false} StrLessAsymmetric(a: string, b: string)
    ensures StrLess(a, b) ==> !StrLess(b, a)
  {
    if a != [] && b != [] && a[0] == b[0] {
      StrLessAsymmetric(a[1..], b[1..]);
    }
  }

  lemma {:induction false} StrLessTotal(a: string, b: string)
    ensures a == b || StrLess(a, b) || StrLess(b, a)
  {
    if a != [] && b != [] && a[0] == b[0] {
      StrLessTotal(a[1..], b[1..]);
      if a[1..] == b[1..] {
        assert a == [a[0]] + a[1..] && b == [b[0]] + b[1..];
      }
    }
  }

  /** The comparator of `sortData` returns a negative number: `a` goes before `b`. */
  predicate Before(a: Row, b: Row, c: Column, dir: Direction)
  {
    if dir == Asc then StrLess(Cell(a, c), Cell(b, c)) else StrLess(Cell(b, c), Cell(a, c))
  }

  lemma BeforeAsymmetric(a: Row, b: Row, c: Column, dir: Direction)
    ensures Before(a, b, c, dir) ==> !Before(b, a, c, dir)
  {
    StrLessAsymmetric(Cell(a, c), Cell(b, c));
    StrLessAsymmetric(Cell(b, c), Cell(a, c));
  }

  /** No adjacent pair is out of order. */
  predicate Sorted(s: seq<Row>, c: Column, dir: Direction)
  {
    forall i :: 0 < i < |s| ==> !Before(s[i], s[i - 1], c, dir)
  }

  /** Insertion before the first element that `x` compares before, so after every row
      equal to it. */
  function Insert(x: Row, s: seq<Row>, c: Column, dir: Direction): (r: seq<Row>)
    ensures |r| == |s| + 1 && multiset(r) == multiset(s) + multiset{x}
    ensures r[0] == x || (s != [] && r[0] == s[0])
  {
    if s == [] then [x]
    else if Before(x, s[0], c, dir) then [x] + s
    else
      assert s == [s[0]] + s[1..];
      [s[0]] + Insert(x, s[1..], c, dir)
  }

  lemma {:induction false} InsertSorted(x: Row, s: seq<Row>, c: Column, dir: Direction)
    requires Sorted(s, c, dir)
    ensures Sorted(Insert(x, s, c, dir), c, dir)
  {
    if s != [] {
      if Before(x, s[0], c, dir) {
        BeforeAsymmetric(x, s[0], c, dir);
      } else {
        InsertSorted(x, s[1..], c, dir);
        var r := Insert(x, s, c, dir);
        assert r[1..] == Insert(x, s[1..], c, dir);
      }
    }
  }

  /** The sort of one level, by insertion of each row in turn after the rows equal to
      it; `Array.prototype.sort` is stable, and so is this order, though no contract
      here states it. */
  function SortLevel(d: seq<Row>, c: Column, dir: Direction): (r: seq<Row>)
    ensures |r| == |d| && multiset(r) == multiset(d)
  {
    if d == [] then []
    else
      var n := |d| - 1;
      assert d == d[..n] + [d[n]];
      Insert(d[n], SortLevel(d[..n], c, dir), c, dir)
  }

  lemma {:induction false} SortLevelSorted(d: seq<Row>, c: Column, dir: Direction)
    ensures Sorted(SortLevel(d, c, dir), c, dir)
  {
    if d != [] {
      SortLevelSorted(d[..|d| - 1], c, dir);
      InsertSorted(d[|d| - 1], SortLevel(d[..|d| - 1], c, dir), c, dir);
    }
  }

  /** The row with its sub-items sorted. */
  function SortRow(r: Row, c: Column, dir: Direction): Row
    decreases r, 3
  {
    r.(subItems := SortData(r.subItems, c, dir))
  }

  function MapSort(d: seq<Row>, c: Column, dir: Direction): (r: seq<Row>)
    ensures |r| == |d|
    decreases d, 1
  {
    if d == [] then [] else [SortRow(d[0], c, dir)] + MapSort(d[1..], c, dir)
  }

  /** `sortData`: every level sorted by the same column and direction. */
  function SortData(d: seq<Row>, c: Column, dir: Direction): seq<Row>
    decreases d, 2
  {
    SortLevel(MapSort(d, c, dir), c, dir)
  }

  lemma {:induction false} MapSortAt(d: seq<Row>, c: Column, dir: Direction, i: nat)
    requires i < |d|
    ensures MapSort(d, c, dir)[i] == SortRow(d[i], c, dir)
  {
    if i > 0 {
      MapSortAt(d[1..], c, dir, i - 1);
    }
  }

  lemma {:induction false} MapSortSnoc(d: seq<Row>, x: Row, c: Column, dir: Direction)
    ensures MapSort(d + [x], c, dir) == MapSort(d, c, dir) + [SortRow(x, c, dir)]
  {
    if d == [] {
      assert d + [x] == [x];
    } else {
      assert (d + [x])[1..] == d[1..] + [x];
      MapSortSnoc(d[1..], x, c, dir);
    }
  }

  lemma {:induction false} InsertCommutes(x: Row, s: seq<Row>, c: Column, dir: Direction)
    ensures Insert(SortRow(x, c, dir), MapSort(s, c, dir), c, dir) == MapSort(Insert(x, s, c, dir), c, dir)
  {
    if s != [] {
      var m := MapSort(s, c, dir);
      assert m[0] == SortRow(s[0], c, dir) && m[1..] == MapSort(s[1..], c, dir);
      if !Before(x, s[0], c, dir) {
        InsertCommutes(x, s[1..], c, dir);
      }
    }
  }

  /** Sorting the children first, as here, or after the level sort, as `sortData`
      does, gives the same rows: the comparator reads only the row's own cells. */
  lemma {:induction false} SortThenMap(d: seq<Row>, c: Column, dir: Direction)
    ensures SortData(d, c, dir) == MapSort(SortLevel(d, c, dir), c, dir)
  {
    if d != [] {
      var n := |d| - 1;
      assert d == d[..n] + [d[n]];
      MapSortSnoc(d[..n], d[n], c, dir);
      assert MapSort(d, c, dir)[..n] == MapSort(d[..n], c, dir);
      SortThenMap(d[..n], c, dir);
      InsertCommutes(d[n], SortLevel(d[..n], c, dir), c, dir);
    }
  }

  /** The result is a permutation of the input rows (each with its sub-items sorted),
      the top level is in order, and a row's cells are untouched by sorting. */
  lemma SortDataSound(d: seq<Row>, c: Column, dir: Direction)
    ensures var r := SortData(d, c, dir);
            |r| == |d| && multiset(r) == multiset(MapSort(d, c, dir)) && Sorted(r, c, dir)
  {
    SortLevelSorted(MapSort(d, c, dir), c, dir);
  }

  /** Ascending order puts no cell after a smaller one; descending reverses it. */
  lemma SortedMeaning(s: seq<Row>, c: Column, dir: Direction, i: nat)
    requires Sorted(s, c, dir) && 0 < i < |s|
    ensures dir == Asc ==> Cell(s[i - 1], c) == Cell(s[i], c) || StrLess(Cell(s[i - 1], c), Cell(s[i], c))
    ensures dir == Desc ==> Cell(s[i - 1], c) == Cell(s[i], c) || StrLess(Cell(s[i], c), Cell(s[i - 1], c))
  {
    StrLessTotal(Cell(s[i - 1], c), Cell(s[i], c));
  }
}
