// The breadcrumb trail of a page, computed from its pathname: one crumb per path
// segment, with `create/<kind>` folded into a single creation crumb, and a leading
// "Inicio" crumb whenever the trail is not empty.

module Breadcrumbs {
  import opened Strings
  import opened JsNumbers

  /** A crumb: `text` is the `label` shown, `isCurrentPage` is absent (`None`) on the home crumb. */
  datatype Crumb = Crumb(text: string, href: string, isCurrentPage: Option<bool>)

  const Home: Crumb := Crumb("Inicio", "/", None)

  /** `routeLabels`. */
  function RouteLabel(segment: string): Option<string>
  {
    if segment == "obras" then Some("Obras")
    else if segment == "presupuesto" then Some("Presupuesto")
    else if segment == "certificado" then Some("Certificado")
    else if segment == "medicion" then Some("Medición")
    else None
  }

  /** `routeLabels[segment] || segment`: every label in the table is non-empty. */
  function RouteLabelOr(segment: string): string
  {
    match RouteLabel(segment)
    case Some(l) => l
    case None => segment
  }

  /** `createLabels[next] || "Crear " + (routeLabels[next] || next)`. */
  function CreateLabel(next: string): string
  {
    if next == "presupuesto" then "Crear Presupuesto"
    else if next == "certificado" then "Crear Certificado"
    else if next == "medicion" then "Crear Medición"
    else "Crear " + RouteLabelOr(next)
  }

  /** The label of an ordinary segment. The last piece of the path so far is the segment
      itself, since segments hold no `/`. */
  function SegmentLabel(segment: string): string
  {
    if StartsWith(segment, "[") && EndsWith(segment, "]") then "Obra : " + segment
    else if NumberOf(segment).Some? then "Obra id: " + segment
    else RouteLabelOr(segment)
  }

  /** `replace(/\/$/, "")`: one trailing slash goes. */
  function DropTrailingSlash(p: string): (r: string)
    ensures r == p || r + "/" == p
  {
    if p != [] && p[|p| - 1] == '/' then p[..|p| - 1] else p
  }

  /** `filter(Boolean)` on strings: the empty ones go. */
  function NonEmpty(xs: seq<string>): (r: seq<string>)
    ensures |r| <= |xs|
    ensures forall k :: 0 <= k < |r| ==> r[k] != [] && r[k] in xs
    ensures forall k :: 0 <= k < |xs| && xs[k] != [] ==> xs[k] in r
  {
    if xs == [] then [] else if xs[0] == [] then NonEmpty(xs[1..]) else [xs[0]] + NonEmpty(xs[1..])
  }

  /** The path segments of a pathname: non-empty and free of `/`. */
  function Segments(pathname: string): (r: seq<string>)
    ensures forall k :: 0 <= k < |r| ==> r[k] != [] && '/' !in r[k]
  {
    var pieces := Split(DropTrailingSlash(pathname), '/');
    assert forall k :: 0 <= k < |NonEmpty(pieces)| ==> NonEmpty(pieces)[k] in pieces;
    NonEmpty(pieces)
  }

  /** `"/" + s[0] + "/" + s[1] + ...`: the path made of the given segments. */
  function PathOf(segments: seq<string>): string
  {
    if segments == [] then "" else PathOf(segments[..|segments| - 1]) + "/" + segments[|segments| - 1]
  }

  lemma {:induction false} PathOfPrefix(segments: seq<string>, j: nat)
    requires j <= |segments|
    ensures StartsWith(PathOf(segments), PathOf(segments[..j]))
    decreases |segments|
  {
    if j < |segments| {
      var n := |segments| - 1;
      assert segments[..n][..j] == segments[..j];
      PathOfPrefix(segments[..n], j);
    } else {
      assert segments[..j] == segments;
    }
  }

  /** The crumbs produced from segment `i` on, when segment `i` is not skipped. */
  function CrumbsFrom(segments: seq<string>, i: nat): (r: seq<Crumb>)
    requires i <= |segments|
    ensures |r| <= |segments| - i
    decreases |segments| - i
  {
    if i == |segments| then []
    else if segments[i] == "create" && i + 1 < |segments| && segments[i + 1] != [] then
      [Crumb(CreateLabel(segments[i + 1]), PathOf(segments[..i + 2]), Some(i + 1 == |segments| - 1))]
      + CrumbsFrom(segments, i + 2)
    else if segments[i] == "create" then CrumbsFrom(segments, i + 1)
    else [Crumb(SegmentLabel(segments[i]), PathOf(segments[..i + 1]), Some(i == |segments| - 1))] +
         CrumbsFrom(segments, i + 1)
  }

  /** The trail of a pathname. */
  function Trail(pathname: string): seq<Crumb>
  {
    var c := CrumbsFrom(Segments(pathname), 0);
    if c == [] then [] else [Home] + c
  }

  lemma PathOfSnoc(segments: seq<string>, i: nat)
    requires i < |segments|
    ensures PathOf(segments[..i + 1]) == PathOf(segments[..i]) + "/" + segments[i]
  {
    assert segments[..i + 1][..i] == segments[..i];
  }

  /** One `forEach` turn on a segment that is not skipped: the path grows by the segment
      (and by the next one after `create`), and at most one crumb is pushed. */
  method Visit(segments: seq<string>, index: nat, currentPath: string, breadcrumbs: seq<Crumb>)
    returns (path: string, crumbs: seq<Crumb>, skipNext: bool)
    requires index < |segments| && currentPath == PathOf(segments[..index])
    ensures !skipNext ==> path == PathOf(segments[..index + 1]) &&
                          crumbs + CrumbsFrom(segments, index + 1) == breadcrumbs + CrumbsFrom(segments, index)
    ensures skipNext ==> index + 1 < |segments| && path == PathOf(segments[..index + 2]) &&
                         crumbs + CrumbsFrom(segments, index + 2) == breadcrumbs + CrumbsFrom(segments, index)
  {
    var segment := segments[index];
    PathOfSnoc(segments, index);
    path := currentPath + "/" + segment;
    var nextSegment := if index + 1 < |segments| then Some(segments[index + 1]) else None;
    if segment == "create" && nextSegment.Some? && nextSegment.value != [] {
      skipNext := true;
      PathOfSnoc(segments, index + 1);
      path := path + "/" + nextSegment.value;
      crumbs := breadcrumbs + [Crumb(CreateLabel(nextSegment.value), path, Some(index + 1 == |segments| - 1))];
    } else if segment == "create" {
      skipNext := false;
      crumbs := breadcrumbs;
    } else {
      skipNext := false;
      crumbs := breadcrumbs + [Crumb(SegmentLabel(segment), path, Some(index == |segments| - 1))];
    }
  }

  /** `generateBreadcrumbs`: the `forEach` with its `skipNext` flag and growing
      `currentPath`, then the `unshift` of the home crumb. */
  method GenerateBreadcrumbs(pathname: string) returns (breadcrumbs: seq<Crumb>)
    ensures breadcrumbs == Trail(pathname)
  {
    var segments := Segments(pathname);
    breadcrumbs := [];
    var currentPath := "";
    var skipNext := false;
    for index := 0 to |segments|
      invariant !skipNext ==> currentPath == PathOf(segments[..index]) &&
                              breadcrumbs + CrumbsFrom(segments, index) == CrumbsFrom(segments, 0)
      invariant skipNext ==> index < |segments| && currentPath == PathOf(segments[..index + 1]) &&
                             breadcrumbs + CrumbsFrom(segments, index + 1) == CrumbsFrom(segments, 0)
    {
      if skipNext {
        skipNext := false;
      } else {
        currentPath, breadcrumbs, skipNext := Visit(segments, index, currentPath, breadcrumbs);
      }
    }
    LoopDone(segments, breadcrumbs);
    if |breadcrumbs| > 0 {
      breadcrumbs := [Home] + breadcrumbs;
    }
  }

  /** Once every segment is visited, the crumbs pushed are all the crumbs. */
  lemma LoopDone(segments: seq<string>, breadcrumbs: seq<Crumb>)
    requires breadcrumbs + CrumbsFrom(segments, |segments|) == CrumbsFrom(segments, 0)
    ensures breadcrumbs == CrumbsFrom(segments, 0)
  {
    assert breadcrumbs + [] == breadcrumbs;
  }

  /** The root and the empty pathname have no trail. */
  lemma RootHasNoTrail()
    ensures Trail("/") == [] && Trail("") == []
  {
    assert DropTrailingSlash("/") == "";
    assert Split("", '/') == [""];
  }

  /** A trail that is not empty starts at home and has a crumb after it. */
  lemma TrailStartsAtHome(pathname: string)
    ensures Trail(pathname) != [] ==> |Trail(pathname)| >= 2 && Trail(pathname)[0] == Home
    ensures Trail(pathname) == [] <==> CrumbsFrom(Segments(pathname), 0) == []
  {
  }

  /** The segment a crumb ends at: every crumb links to the path of the segments up to
      it, and it is the current page exactly when that is the last segment. */
  function CrumbEnd(segments: seq<string>, i: nat, k: nat): (j: nat)
    requires i <= |segments| && k < |CrumbsFrom(segments, i)|
    ensures i < j <= |segments|
    ensures CrumbsFrom(segments, i)[k].href == PathOf(segments[..j])
    ensures CrumbsFrom(segments, i)[k].isCurrentPage == Some(j == |segments|)
    decreases |segments| - i
  {
    if segments[i] == "create" && i + 1 < |segments| && segments[i + 1] != [] then
      CrumbAfter(segments, i, i + 2, k);
      if k == 0 then i + 2 else CrumbEnd(segments, i + 2, k - 1)
    else if segments[i] == "create" then
      CrumbAfter(segments, i, i + 1, k);
      CrumbEnd(segments, i + 1, k)
    else
      CrumbAfter(segments, i, i + 1, k);
      if k == 0 then i + 1 else CrumbEnd(segments, i + 1, k - 1)
  }

  /** How the crumbs from `i` continue at `next`: after one crumb for `create` and its
      segment or for a plain segment, and with no crumb of its own for a bare `create`. */
  lemma CrumbAfter(segments: seq<string>, i: nat, next: nat, k: nat)
    requires i < |segments| && k < |CrumbsFrom(segments, i)|
    requires next == if segments[i] == "create" && i + 1 < |segments| && segments[i + 1] != [] then i + 2 else i + 1
    ensures next <= |segments|
    ensures segments[i] == "create" && next == i + 1 ==> CrumbsFrom(segments, i)[k] == CrumbsFrom(segments, next)[k]
    ensures !(segments[i] == "create" && next == i + 1) ==>
              (k == 0 ==> CrumbsFrom(segments, i)[0].href == PathOf(segments[..next]) &&
                          CrumbsFrom(segments, i)[0].isCurrentPage == Some(next == |segments|)) &&
              (k > 0 ==> k - 1 < |CrumbsFrom(segments, next)| &&
                         CrumbsFrom(segments, i)[k] == CrumbsFrom(segments, next)[k - 1])
  {
  }

  /** Every href of a trail is a prefix of the full path, home included. */
  lemma HrefsArePathPrefixes(pathname: string, k: nat)
    requires k < |Trail(pathname)|
    ensures StartsWith(PathOf(Segments(pathname)), Trail(pathname)[k].href) || Trail(pathname)[k] == Home
  {
    var segments := Segments(pathname);
    if k > 0 {
      var j := CrumbEnd(segments, 0, k - 1);
      PathOfPrefix(segments, j);
    }
  }

  /** `create` followed by a segment gives one creation crumb linking to both, and the
      following segment makes no crumb of its own. */
  lemma CreateFoldsNext(segments: seq<string>, i: nat)
    requires i + 1 < |segments| && segments[i] == "create" && segments[i + 1] != []
    ensures CrumbsFrom(segments, i) ==
            [Crumb(CreateLabel(segments[i + 1]), PathOf(segments[..i]) + "/create/" + segments[i + 1],
                   Some(i + 2 == |segments|))] + CrumbsFrom(segments, i + 2)
  {
    PathOfSnoc(segments, i);
    PathOfSnoc(segments, i + 1);
    var p := PathOf(segments[..i]);
    calc {
      PathOf(segments[..i + 2]);
      p + "/" + "create" + "/" + segments[i + 1];
      { assert "/" + "create" + "/" == "/create/"; }
      p + "/create/" + segments[i + 1];
    }
  }

  /** A trailing `create` adds nothing to the trail of the segments before it. */
  lemma {:induction false} TrailingCreateIgnored(segments: seq<string>, i: nat)
    requires i <= |segments|
    requires forall k :: 0 <= k < |segments| ==> segments[k] != []
    requires i == |segments| || segments[|segments| - 1] != "create"
    ensures |CrumbsFrom(segments + ["create"], i)| == |CrumbsFrom(segments, i)|
    decreases |segments| - i
  {
    var s := segments + ["create"];
    assert s[..|segments|] == segments;
    if i < |segments| {
      if segments[i] == "create" && i + 1 < |segments| {
        TrailingCreateIgnored(segments, i + 2);
      } else {
        TrailingCreateIgnored(segments, i + 1);
      }
    }
  }
}
