// The `{ [tag]: items[] }` objects the budget screens keep their rows in, modelled as a
// sequence of sections in insertion order: reading `obj[tag]` finds the section,
// assigning `obj[tag] = xs` replaces it in place or, for a new tag, appends it at the
// end. A JavaScript object enumerates its non-numeric string keys in that order; keys
// that look like array indices (`"1"`, `"20"`) come first, in ascending numeric order,
// which this model does not reproduce.

module Grouped {
  import opened Strings

  datatype Section<T> = Section(tag: string, items: seq<T>)

  type Groups<T> = seq<Section<T>>

  function Tags<T>(g: Groups<T>): (r: seq<string>)
    ensures |r| == |g| && forall i :: 0 <= i < |g| ==> r[i] == g[i].tag
  {
    if g == [] then [] else [g[0].tag] + Tags(g[1..])
  }

  /** No tag occurs twice (object keys are unique). */
  predicate UniqueTags<T>(g: Groups<T>)
  {
    forall i, j :: 0 <= i < j < |g| ==> g[i].tag != g[j].tag
  }

  /** Position of the section named `tag`. */
  function IndexOfTag<T>(g: Groups<T>, tag: string): (r: Option<nat>)
    ensures r.Some? ==> r.value < |g| && g[r.value].tag == tag &&
                        forall j :: 0 <= j < r.value ==> g[j].tag != tag
    ensures r.None? ==> forall j :: 0 <= j < |g| ==> g[j].tag != tag
  {
    if g == [] then None
    else if g[0].tag == tag then Some(0)
    else match IndexOfTag(g[1..], tag)
      case None => None
      case Some(k) => Some(k + 1)
  }

  /** The position of a tag is its first occurrence. */
  lemma {:induction false} IndexOfTagIs<T>(g: Groups<T>, tag: string, k: nat)
    requires k < |g| && g[k].tag == tag
    requires forall j :: 0 <= j < k ==> g[j].tag != tag
    ensures IndexOfTag(g, tag) == Some(k)
  {
    if k > 0 {
      IndexOfTagIs(g[1..], tag, k - 1);
    }
  }

  lemma {:induction false} IndexOfTagAbsent<T>(g: Groups<T>, tag: string)
    requires forall j :: 0 <= j < |g| ==> g[j].tag != tag
    ensures IndexOfTag(g, tag).None?
  {
    if g != [] {
      IndexOfTagAbsent(g[1..], tag);
    }
  }

  /** Lookup depends on the keys alone. */
  lemma {:induction false} IndexOfTagSameTags<T, U>(a: Groups<T>, b: Groups<U>, tag: string)
    requires Tags(a) == Tags(b)
    ensures IndexOfTag(a, tag) == IndexOfTag(b, tag)
  {
    if a != [] {
      assert a[0].tag == Tags(a)[0] && b[0].tag == Tags(b)[0];
      assert Tags(a[1..]) == Tags(a)[1..] && Tags(b[1..]) == Tags(b)[1..];
      IndexOfTagSameTags(a[1..], b[1..], tag);
    }
  }

  /** `obj[tag]`. */
  function Get<T>(g: Groups<T>, tag: string): Option<seq<T>>
  {
    match IndexOfTag(g, tag)
    case None => None
    case Some(k) => Some(g[k].items)
  }

  /** `obj[tag] || []`. */
  function GetOr<T>(g: Groups<T>, tag: string): seq<T>
  {
    match Get(g, tag)
    case None => []
    case Some(xs) => xs
  }

  /** `obj[tag] = xs`. */
  function Put<T>(g: Groups<T>, tag: string, xs: seq<T>): (r: Groups<T>)
    ensures |r| == |g| || |r| == |g| + 1
  {
    match IndexOfTag(g, tag)
    case None => g + [Section(tag, xs)]
    case Some(k) => g[k := Section(tag, xs)]
  }

  /** After `obj[tag] = xs`, `obj[tag]` is `xs` and every other key reads as before. */
  lemma GetPut<T>(g: Groups<T>, tag: string, xs: seq<T>, other: string)
    ensures Get(Put(g, tag, xs), tag) == Some(xs)
    ensures other != tag ==> Get(Put(g, tag, xs), other) == Get(g, other)
  {
    var r := Put(g, tag, xs);
    match IndexOfTag(g, tag)
    case None =>
      IndexOfTagIs(r, tag, |g|);
      if other != tag {
        match IndexOfTag(g, other)
        case None =>
          IndexOfTagAbsent(r, other);
        case Some(j) =>
          IndexOfTagIs(r, other, j);
      }
    case Some(k) =>
      IndexOfTagIs(r, tag, k);
      if other != tag {
        match IndexOfTag(g, other)
        case None =>
          IndexOfTagAbsent(r, other);
        case Some(j) =>
          IndexOfTagIs(r, other, j);
      }
  }

  /** Keys keep their order; a new key goes last. */
  lemma TagsPut<T>(g: Groups<T>, tag: string, xs: seq<T>)
    ensures Tags(Put(g, tag, xs)) == if tag in Tags(g) then Tags(g) else Tags(g) + [tag]
  {
    var r := Put(g, tag, xs);
    match IndexOfTag(g, tag)
    case None =>
      assert tag !in Tags(g);
      assert Tags(r) == Tags(g) + [tag];
    case Some(k) =>
      assert Tags(g)[k] == tag;
      assert Tags(r) == Tags(g);
  }

  /** Assignment never creates a duplicate key. */
  lemma PutUnique<T>(g: Groups<T>, tag: string, xs: seq<T>)
    requires UniqueTags(g)
    ensures UniqueTags(Put(g, tag, xs))
  {
    var r := Put(g, tag, xs);
    TagsPut(g, tag, xs);
    forall i, j | 0 <= i < j < |r|
      ensures r[i].tag != r[j].tag
    {
      assert Tags(r)[i] == r[i].tag && Tags(r)[j] == r[j].tag;
      if j == |g| {
        assert Tags(g)[i] == g[i].tag;
      } else {
        assert Tags(g)[i] == g[i].tag && Tags(g)[j] == g[j].tag;
      }
    }
  }

  /** `Object.values(obj).flat()`. */
  function Flatten<T>(g: Groups<T>): seq<T>
  {
    if g == [] then [] else Flatten(g[..|g| - 1]) + g[|g| - 1].items
  }
}
