/** The application sidebar: the directory listing of the `app` folder is
    turned into navigation entries (one per folder, a leading "Main" link for
    folders that hold a `page.tsx`), and the icon keys of the first two levels
    are then resolved to icon components. */
module SidebarNav {
  import opened Strings

  /** A value of the directory structure: a folder object, whose keys are its
      sub-folders plus an optional `files` key, or the array of file names
      stored under `files`. Entries are listed in `for...in` order. */
  datatype Listing = Folder(entries: seq<(string, Listing)>) | FileList(names: seq<string>)

  /** The key under which a folder lists its own files. */
  const FilesKey := "files"

  /** `folder.files.includes` is only defined when every `files` key of the
      structure holds an array of names. */
  predicate FilesAreLists(d: Listing)
  {
    match d
    case FileList(_) => true
    case Folder(entries) =>
      forall i :: 0 <= i < |entries| ==>
        (entries[i].0 == FilesKey ==> entries[i].1.FileList?) && FilesAreLists(entries[i].1)
  }

  /** The value of the first entry named `key`, like a property read. */
  function Lookup(entries: seq<(string, Listing)>, key: string): (r: Option<Listing>)
    ensures r.Some? <==> exists i :: 0 <= i < |entries| && entries[i].0 == key
    ensures r.Some? ==> exists i :: 0 <= i < |entries| && entries[i] == (key, r.value)
  {
    if entries == [] then None
    else if entries[0].0 == key then Some(entries[0].1)
    else
      var r := Lookup(entries[1..], key);
      assert forall i :: 1 <= i < |entries| ==> entries[i] == entries[1..][i - 1];
      r
  }

  /** `(folder.files || []).includes("page.tsx")`; an array has no `files`
      property, so it never counts as a page folder. */
  predicate HasPageFile(folder: Listing)
  {
    match folder
    case FileList(_) => false
    case Folder(entries) =>
      match Lookup(entries, FilesKey)
      case Some(FileList(names)) => "page.tsx" in names
      case _ => false
  }

  // ---------------------------------------------------------------- urls

  /** No two consecutive slashes. */
  predicate NoDoubleSlash(s: string)
  {
    forall i :: 0 <= i < |s| - 1 ==> !(s[i] == '/' && s[i + 1] == '/')
  }

  /** `s.replace(/\/+/g, "/")`: every run of slashes becomes a single one. */
  function CollapseSlashes(s: string): (r: string)
    ensures |r| <= |s|
    ensures s != [] ==> r != [] && r[0] == s[0]
    ensures NoDoubleSlash(r)
  {
    if |s| < 2 then s
    else if s[0] == '/' && s[1] == '/' then CollapseSlashes(s[1..])
    else [s[0]] + CollapseSlashes(s[1..])
  }

  /** The characters of `s` other than slashes, in order. */
  function WithoutSlashes(s: string): string
  {
    if s == [] then [] else (if s[0] == '/' then [] else [s[0]]) + WithoutSlashes(s[1..])
  }

  /** Collapsing removes slashes only. */
  lemma {:induction false} CollapseKeepsOtherChars(s: string)
    ensures WithoutSlashes(CollapseSlashes(s)) == WithoutSlashes(s)
    decreases |s|
  {
    if |s| < 2 {
    } else if s[0] == '/' && s[1] == '/' {
      CollapseKeepsOtherChars(s[1..]);
      assert WithoutSlashes(s) == WithoutSlashes(s[1..]);
    } else {
      CollapseKeepsOtherChars(s[1..]);
      var r := CollapseSlashes(s[1..]);
      assert ([s[0]] + r)[1..] == r;
    }
  }

  /** A path without doubled slashes is left unchanged. */
  lemma {:induction false} CollapseKeepsCleanPath(s: string)
    requires NoDoubleSlash(s)
    ensures CollapseSlashes(s) == s
    decreases |s|
  {
    if |s| >= 2 {
      assert NoDoubleSlash(s[1..]) by {
        forall i | 0 <= i < |s[1..]| - 1
          ensures !(s[1..][i] == '/' && s[1..][i + 1] == '/')
        {
          assert s[1..][i] == s[i + 1] && s[1..][i + 1] == s[i + 2];
        }
      }
      CollapseKeepsCleanPath(s[1..]);
      assert !(s[0] == '/' && s[1] == '/');
      assert s == [s[0]] + s[1..];
    }
  }

  /** Collapsing a second time changes nothing. */
  lemma CollapseIdempotent(s: string)
    ensures CollapseSlashes(CollapseSlashes(s)) == CollapseSlashes(s)
  {
    CollapseKeepsCleanPath(CollapseSlashes(s));
  }

  // ---------------------------------------------------------------- icons

  /** The icon components of the sidebar. */
  datatype Icon =
    | FilePlusIcon | HouseIcon | FolderSearch2Icon | BrainCog | LayoutTemplate
    | DatabaseZap | HardHat | CoinsIcon | FlaskConical | BotIcon | LayoutList | QrCode

  /** `iconMap`: icon key to component. */
  const IconMap: map<string, Icon> := map[
    "FilePlus" := FilePlusIcon, "House" := HouseIcon, "FolderSearch2" := FolderSearch2Icon,
    "BrainCogIcon" := BrainCog, "LayoutTemplateIcon" := LayoutTemplate,
    "DatabaseZapIcon" := DatabaseZap, "HardHatIcon" := HardHat, "Coins" := CoinsIcon,
    "FlaskConicalIcon" := FlaskConical, "Bot" := BotIcon, "LayoutListIcon" := LayoutList,
    "QrCodeIcon" := QrCode]

  /** `iconMap[key]`, `undefined` for a key the map lacks. */
  function IconOf(key: string): Option<Icon>
  {
    if key in IconMap then Some(IconMap[key]) else None
  }

  /** The folder names that have their own icon, with the icon key. */
  const IconRoutes: seq<(string, string)> := [
    ("create", "FilePlus"), ("main", "House"), ("explore", "FolderSearch2"),
    ("api", "BrainCogIcon"), ("dashboard", "LayoutTemplateIcon"), ("db", "DatabaseZapIcon"),
    ("obras", "HardHatIcon"), ("presupuesto", "Coins"), ("uitest", "FlaskConicalIcon")]

  /** The icon key of a folder, chosen on its lower-cased name; `Bot` otherwise.
      The layout-list and QR-code icons are never chosen. */
  function FindIconKey(key: string): (r: string)
    ensures r in IconMap
    ensures r != "LayoutListIcon" && r != "QrCodeIcon"
  {
    IconKeyOfName(ToLower(key))
  }

  /** The icon key of a lower-cased folder name. */
  function IconKeyOfName(k: string): (r: string)
    ensures r in IconMap
    ensures r != "LayoutListIcon" && r != "QrCodeIcon"
  {
    if k == "create" then "FilePlus"
    else if k == "main" then "House"
    else if k == "explore" then "FolderSearch2"
    else if k == "api" then "BrainCogIcon"
    else if k == "dashboard" then "LayoutTemplateIcon"
    else if k == "db" then "DatabaseZapIcon"
    else if k == "obras" then "HardHatIcon"
    else if k == "presupuesto" then "Coins"
    else if k == "uitest" then "FlaskConicalIcon"
    else "Bot"
  }

  /** A folder name listed in the route table, in any letter case, gets the
      icon key the table gives it. */
  lemma FindIconKeyRouted(key: string, i: nat)
    requires i < |IconRoutes| && IconRoutes[i].0 == ToLower(key)
    ensures FindIconKey(key) == IconRoutes[i].1
  {
    var k := ToLower(key);
    if i == 0 { assert k == "create"; }
    else if i == 1 { assert k == "main"; }
    else if i == 2 { assert k == "explore"; }
    else if i == 3 { assert k == "api"; }
    else if i == 4 { assert k == "dashboard"; }
    else if i == 5 { assert k == "db"; }
    else if i == 6 { assert k == "obras"; }
    else if i == 7 { assert k == "presupuesto"; }
    else { assert k == "uitest"; }
  }

  /** Any other folder name gets `Bot`, and only those do. */
  lemma FindIconKeyDefault(key: string)
    ensures FindIconKey(key) == "Bot" <==> forall i :: 0 <= i < |IconRoutes| ==> IconRoutes[i].0 != ToLower(key)
  {
    var k := ToLower(key);
    if FindIconKey(key) != "Bot" {
      var i := if k == "create" then 0 else if k == "main" then 1 else if k == "explore" then 2
               else if k == "api" then 3 else if k == "dashboard" then 4 else if k == "db" then 5
               else if k == "obras" then 6 else if k == "presupuesto" then 7 else 8;
      assert IconRoutes[i].0 == k;
    }
  }

  lemma {:induction false} ToLowerIdempotent(s: string)
    ensures ToLower(ToLower(s)) == ToLower(s)
  {
    var l := ToLower(s);
    forall i | 0 <= i < |s|
      ensures ToLower(l)[i] == l[i]
    {
      assert !IsUpperAscii(ToLowerChar(s[i]));
    }
  }

  /** The choice ignores letter case. */
  lemma FindIconKeyIgnoresCase(key: string)
    ensures FindIconKey(ToLower(key)) == FindIconKey(key)
  {
    ToLowerIdempotent(key);
  }

  // ---------------------------------------------------------------- titles

  /** `charAt(0).toUpperCase() + slice(1)`. */
  function Capitalize(s: string): (r: string)
    ensures |r| == |s|
    ensures s != [] ==> r[0] == ToUpperChar(s[0]) && !IsLowerAscii(r[0])
    ensures forall i :: 1 <= i < |s| ==> r[i] == s[i]
  {
    if s == [] then [] else [ToUpperChar(s[0])] + s[1..]
  }

  /** Capitalizing a title again changes nothing. */
  lemma CapitalizeIdempotent(s: string)
    ensures Capitalize(Capitalize(s)) == Capitalize(s)
  {
    if s != [] {
      var c := Capitalize(s);
      assert ToUpperChar(c[0]) == c[0];
      assert c == [c[0]] + c[1..];
    }
  }

  // ---------------------------------------------------------------- navigation

  /** `NavData`: a navigation entry. The "Main" link of a page folder has no
      `items` property. */
  datatype NavEntry = NavEntry(title: string, url: string, iconKey: string, items: Option<seq<NavEntry>>)

  /** The leading link of a folder that has its own page. */
  function MainLink(url: string): NavEntry
  {
    NavEntry("Main", url, "House", None)
  }

  /** What one key of a folder contributes: nothing for `files`, one entry for
      any other key (arrays and folders are both objects). */
  function EntryNavs(key: string, folder: Listing, basePath: string): seq<NavEntry>
    decreases folder, 2
  {
    if key == FilesKey then []
    else
      var path := basePath + "/" + key;
      var url := CollapseSlashes(path);
      var children := Transform(folder, path);
      [NavEntry(Capitalize(key), url, FindIconKey(key),
                Some(if HasPageFile(folder) then [MainLink(url)] + children else children))]
  }

  /** The contribution of each key, in enumeration order. An array's keys are
      its indices, whose values are strings, so it contributes nothing. */
  function Contributions(d: Listing, basePath: string): (t: seq<seq<NavEntry>>)
    ensures d.FileList? ==> t == []
    ensures d.Folder? ==> |t| == |d.entries|
    decreases d, 0
  {
    match d
    case FileList(_) => []
    case Folder(entries) =>
      seq(|entries|, i requires 0 <= i < |entries| => EntryNavs(entries[i].0, entries[i].1, basePath))
  }

  function Flatten(t: seq<seq<NavEntry>>): seq<NavEntry>
  {
    if t == [] then [] else Flatten(t[..|t| - 1]) + t[|t| - 1]
  }

  /** `transformDirectoryToNav(structure, basePath)` as a value. */
  function Transform(d: Listing, basePath: string): seq<NavEntry>
    decreases d, 1
  {
    Flatten(Contributions(d, basePath))
  }

  /** `transformDirectoryToNav`: one pass over the keys of the structure,
      recursing into each folder. */
  method TransformDirectoryToNav(structure: Listing, basePath: string) returns (result: seq<NavEntry>)
    requires FilesAreLists(structure)
    ensures result == Transform(structure, basePath)
    decreases structure
  {
    result := [];
    match structure {
      case FileList(_) =>
      case Folder(entries) =>
        ghost var t := Contributions(structure, basePath);
        for i := 0 to |entries|
          invariant result == Flatten(t[..i])
        {
          var key := entries[i].0;
          var folder := entries[i].1;
          assert t[i] == EntryNavs(key, folder, basePath);
          assert t[..i + 1][i] == t[i];
          if key != FilesKey {
            var path := basePath + "/" + key;
            var url := CollapseSlashes(path);
            var items := TransformDirectoryToNav(folder, path);
            if HasPageFile(folder) {
              result := result + [NavEntry(Capitalize(key), url, FindIconKey(key), Some([MainLink(url)] + items))];
            } else {
              result := result + [NavEntry(Capitalize(key), url, FindIconKey(key), Some(items))];
            }
          }
          assert t[..i + 1][..i] == t[..i];
        }
        assert t[..|entries|] == t;
    }
  }

  /** The keys of a folder other than `files`, with their values. */
  function NonFilesEntries(entries: seq<(string, Listing)>): (r: seq<(string, Listing)>)
    ensures forall j :: 0 <= j < |r| ==> r[j].0 != FilesKey
    ensures forall j :: 0 <= j < |r| ==> r[j] in entries
  {
    if entries == [] then []
    else
      var last := entries[|entries| - 1];
      NonFilesEntries(entries[..|entries| - 1]) + (if last.0 == FilesKey then [] else [last])
  }

  lemma {:induction false} ShapePrefix(d: Listing, basePath: string, k: nat)
    requires d.Folder? && k <= |d.entries|
    ensures var out := Flatten(Contributions(d, basePath)[..k]);
            var keys := NonFilesEntries(d.entries[..k]);
            |out| == |keys| &&
            forall j :: 0 <= j < |out| ==> out[j] == EntryNavs(keys[j].0, keys[j].1, basePath)[0]
  {
    if k > 0 {
      ShapePrefix(d, basePath, k - 1);
      var t := Contributions(d, basePath);
      assert t[..k][..k - 1] == t[..k - 1];
      assert d.entries[..k][..k - 1] == d.entries[..k - 1];
      assert d.entries[..k][k - 1] == d.entries[k - 1];
    }
  }

  /** Every key except `files` yields exactly one entry, in order, and that
      entry is the one the key and its value produce. */
  lemma TransformEntryPerKey(d: Listing, basePath: string)
    requires d.Folder?
    ensures var out := Transform(d, basePath);
            var keys := NonFilesEntries(d.entries);
            |out| == |keys| &&
            forall j :: 0 <= j < |out| ==> out[j] == EntryNavs(keys[j].0, keys[j].1, basePath)[0]
  {
    ShapePrefix(d, basePath, |d.entries|);
    assert Contributions(d, basePath)[..|d.entries|] == Contributions(d, basePath);
    assert d.entries[..|d.entries|] == d.entries;
  }

  /** The entries of a folder carry its key's title, collapsed url and icon;
      no entry comes from the `files` key. */
  lemma TransformTitlesAndUrls(d: Listing, basePath: string)
    requires d.Folder?
    ensures var out := Transform(d, basePath);
            var keys := NonFilesEntries(d.entries);
            |out| == |keys| &&
            forall j :: 0 <= j < |out| ==>
              keys[j].0 != FilesKey &&
              out[j].title == Capitalize(keys[j].0) &&
              out[j].url == CollapseSlashes(basePath + "/" + keys[j].0) &&
              NoDoubleSlash(out[j].url) &&
              out[j].iconKey == FindIconKey(keys[j].0) &&
              out[j].items.Some?
  {
    TransformEntryPerKey(d, basePath);
  }

  /** Every entry the transformation produces has an `items` list. */
  lemma TransformHasItems(d: Listing, basePath: string)
    ensures forall j :: 0 <= j < |Transform(d, basePath)| ==> Transform(d, basePath)[j].items.Some?
  {
    if d.Folder? {
      TransformTitlesAndUrls(d, basePath);
    }
  }

  /** A folder holding `page.tsx` exactly when its entry starts with a "Main"
      link to the folder's own url; the sub-folders' entries follow. */
  lemma PageFolderLeadsWithMain(key: string, folder: Listing, basePath: string)
    requires key != FilesKey
    ensures var n := EntryNavs(key, folder, basePath);
            var children := Transform(folder, basePath + "/" + key);
            |n| == 1 && n[0].items.Some? &&
            (HasPageFile(folder) <==> (n[0].items.value != [] && n[0].items.value[0] == MainLink(n[0].url))) &&
            n[0].items.value == (if HasPageFile(folder) then [MainLink(n[0].url)] + children else children)
  {
    TransformHasItems(folder, basePath + "/" + key);
  }

  /** The entry of one key: its icon key and those of its links are known. */
  lemma EntryIconKeysKnown(key: string, folder: Listing, basePath: string)
    requires key != FilesKey
    ensures var n := EntryNavs(key, folder, basePath)[0];
            n.iconKey in IconMap && n.items.Some? &&
            forall m :: 0 <= m < |n.items.value| ==> n.items.value[m].iconKey in IconMap
  {
    var path := basePath + "/" + key;
    PageFolderLeadsWithMain(key, folder, basePath);
    if folder.Folder? {
      TransformTitlesAndUrls(folder, path);
    }
  }

  /** The icon keys of the first two levels are all in the icon map. */
  lemma TransformIconKeysKnown(d: Listing, basePath: string)
    ensures var out := Transform(d, basePath);
            forall j :: 0 <= j < |out| ==>
              out[j].iconKey in IconMap && out[j].items.Some? &&
              forall m :: 0 <= m < |out[j].items.value| ==> out[j].items.value[m].iconKey in IconMap
  {
    if d.Folder? {
      var out := Transform(d, basePath);
      var keys := NonFilesEntries(d.entries);
      TransformEntryPerKey(d, basePath);
      forall j | 0 <= j < |out|
        ensures out[j].iconKey in IconMap && out[j].items.Some? &&
                forall m :: 0 <= m < |out[j].items.value| ==> out[j].items.value[m].iconKey in IconMap
      {
        EntryIconKeysKnown(keys[j].0, keys[j].1, basePath);
      }
    }
  }

  // ---------------------------------------------------------------- menu items

  /** `NavItem` sub-link: title, url and resolved icon. */
  datatype MenuLink = MenuLink(title: string, url: string, icon: Option<Icon>)

  /** `NavItem`: title, url, resolved icon and its sub-links. */
  datatype MenuItem = MenuItem(title: string, url: string, icon: Option<Icon>, items: seq<MenuLink>)

  function ToLink(n: NavEntry): MenuLink
  {
    MenuLink(n.title, n.url, IconOf(n.iconKey))
  }

  function ToItem(n: NavEntry): MenuItem
    requires n.items.Some?
  {
    MenuItem(n.title, n.url, IconOf(n.iconKey),
             seq(|n.items.value|, j requires 0 <= j < |n.items.value| => ToLink(n.items.value[j])))
  }

  /** `mapIconsToComponents`: two levels are converted, each entry keeping its
      title and url and gaining the icon of its key; deeper levels are dropped.
      Every top-level entry must have `items`. */
  function MapIconsToComponents(navItems: seq<NavEntry>): (r: seq<MenuItem>)
    requires forall i :: 0 <= i < |navItems| ==> navItems[i].items.Some?
    ensures |r| == |navItems|
    ensures forall i :: 0 <= i < |r| ==>
              r[i].title == navItems[i].title && r[i].url == navItems[i].url &&
              r[i].icon == IconOf(navItems[i].iconKey) &&
              |r[i].items| == |navItems[i].items.value| &&
              forall j :: 0 <= j < |r[i].items| ==>
                r[i].items[j] == MenuLink(navItems[i].items.value[j].title, navItems[i].items.value[j].url,
                                          IconOf(navItems[i].items.value[j].iconKey))
  {
    seq(|navItems|, i requires 0 <= i < |navItems| => ToItem(navItems[i]))
  }

  /** The sidebar built from a directory structure: every icon of both levels
      resolves to a component. */
  lemma SidebarIconsResolved(d: Listing, basePath: string)
    ensures var out := Transform(d, basePath);
            (forall i :: 0 <= i < |out| ==> out[i].items.Some?) &&
            var menu := MapIconsToComponents(out);
            forall i :: 0 <= i < |menu| ==>
              menu[i].icon.Some? && forall j :: 0 <= j < |menu[i].items| ==> menu[i].items[j].icon.Some?
  {
    TransformIconKeysKnown(d, basePath);
  }
}
