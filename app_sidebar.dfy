/** The older top-level sidebar component. Its directory transformation and
    title capitalization are the same code as the sidebar's (see SidebarNav);
    what differs is a smaller icon map and a mapping that spreads every field
    of the first two levels instead of picking title and url. */
module AppSidebar {
  import opened Strings
  import opened SidebarNav

  /** `iconMap` of this component: the layout-list and QR-code icons are absent. */
  const VariantIconMap: map<string, Icon> := map[
    "FilePlus" := FilePlusIcon, "House" := HouseIcon, "FolderSearch2" := FolderSearch2Icon,
    "BrainCogIcon" := BrainCog, "LayoutTemplateIcon" := LayoutTemplate,
    "DatabaseZapIcon" := DatabaseZap, "HardHatIcon" := HardHat, "Coins" := CoinsIcon,
    "FlaskConicalIcon" := FlaskConical, "Bot" := BotIcon]

  function VariantIconOf(key: string): Option<Icon>
  {
    if key in VariantIconMap then Some(VariantIconMap[key]) else None
  }

  /** The smaller map agrees with the sidebar's wherever it is defined, and
      lacks exactly the two icons no folder name selects. */
  lemma IconMapsAgree(key: string)
    ensures key in VariantIconMap ==> VariantIconOf(key) == IconOf(key)
    ensures key in IconMap && key !in VariantIconMap <==> key == "LayoutListIcon" || key == "QrCodeIcon"
  {
  }

  /** A sub-link after the spread: every field it had, including a nested
      `items` list left untouched, plus its icon. */
  datatype SpreadLink = SpreadLink(title: string, url: string, iconKey: string,
                                   items: Option<seq<NavEntry>>, icon: Option<Icon>)

  /** A top-level entry after the spread: its fields, its icon, and its
      converted sub-links in place of `items`. */
  datatype SpreadItem = SpreadItem(title: string, url: string, iconKey: string,
                                   icon: Option<Icon>, items: seq<SpreadLink>)

  function SpreadOf(n: NavEntry): SpreadLink
  {
    SpreadLink(n.title, n.url, n.iconKey, n.items, VariantIconOf(n.iconKey))
  }

  function SpreadItemOf(n: NavEntry): SpreadItem
    requires n.items.Some?
  {
    SpreadItem(n.title, n.url, n.iconKey, VariantIconOf(n.iconKey),
               seq(|n.items.value|, j requires 0 <= j < |n.items.value| => SpreadOf(n.items.value[j])))
  }

  /** `mapIconsToComponents` of this component: two levels gain an icon, and
      nothing they carried is lost. Every top-level entry must have `items`. */
  function SpreadIcons(navItems: seq<NavEntry>): (r: seq<SpreadItem>)
    requires forall i :: 0 <= i < |navItems| ==> navItems[i].items.Some?
    ensures |r| == |navItems|
    ensures forall i :: 0 <= i < |r| ==>
              r[i].icon == VariantIconOf(navItems[i].iconKey) &&
              |r[i].items| == |navItems[i].items.value| &&
              forall j :: 0 <= j < |r[i].items| ==>
                r[i].items[j].icon == VariantIconOf(navItems[i].items.value[j].iconKey)
  {
    seq(|navItems|, i requires 0 <= i < |navItems| => SpreadItemOf(navItems[i]))
  }

  /** Drops the icons again. */
  function Unspread(r: seq<SpreadItem>): seq<NavEntry>
  {
    seq(|r|, i requires 0 <= i < |r| =>
      NavEntry(r[i].title, r[i].url, r[i].iconKey,
               Some(seq(|r[i].items|, j requires 0 <= j < |r[i].items| =>
                 NavEntry(r[i].items[j].title, r[i].items[j].url, r[i].items[j].iconKey, r[i].items[j].items)))))
  }

  /** The spread keeps every field of both levels and the deeper levels: the
      entries are recovered from the result. */
  lemma SpreadLosesNothing(navItems: seq<NavEntry>)
    requires forall i :: 0 <= i < |navItems| ==> navItems[i].items.Some?
    ensures Unspread(SpreadIcons(navItems)) == navItems
  {
    var u := Unspread(SpreadIcons(navItems));
    forall i | 0 <= i < |navItems|
      ensures u[i] == navItems[i]
    {
      assert u[i].items.value == navItems[i].items.value;
    }
  }

  /** The sidebar built from a directory structure: even with the smaller map,
      every icon of both levels resolves. */
  lemma VariantIconsResolved(d: Listing, basePath: string)
    ensures var out := Transform(d, basePath);
            (forall i :: 0 <= i < |out| ==> out[i].items.Some?) &&
            var menu := SpreadIcons(out);
            forall i :: 0 <= i < |menu| ==>
              menu[i].icon.Some? && forall j :: 0 <= j < |menu[i].items| ==> menu[i].items[j].icon.Some?
  {
    TransformIconKeysKnown(d, basePath);
    TransformUsesSelectableKeys(d, basePath);
  }

  /** Only keys a folder name selects, and `House`, occur on the first two levels. */
  lemma TransformUsesSelectableKeys(d: Listing, basePath: string)
    ensures var out := Transform(d, basePath);
            forall j :: 0 <= j < |out| ==>
              out[j].iconKey in VariantIconMap && out[j].items.Some? &&
              forall m :: 0 <= m < |out[j].items.value| ==> out[j].items.value[m].iconKey in VariantIconMap
  {
    var out := Transform(d, basePath);
    TransformIconKeysKnown(d, basePath);
    if d.Folder? {
      var keys := NonFilesEntries(d.entries);
      TransformEntryPerKey(d, basePath);
      forall j | 0 <= j < |out|
        ensures out[j].iconKey in VariantIconMap && out[j].items.Some? &&
                forall m :: 0 <= m < |out[j].items.value| ==> out[j].items.value[m].iconKey in VariantIconMap
      {
        EntryUsesSelectableKeys(keys[j].0, keys[j].1, basePath);
      }
    }
  }

  lemma EntryUsesSelectableKeys(key: string, folder: Listing, basePath: string)
    requires key != FilesKey
    ensures var n := EntryNavs(key, folder, basePath)[0];
            n.iconKey in VariantIconMap && n.items.Some? &&
            forall m :: 0 <= m < |n.items.value| ==> n.items.value[m].iconKey in VariantIconMap
  {
    var path := basePath + "/" + key;
    var n := EntryNavs(key, folder, basePath)[0];
    var children := Transform(folder, path);
    PageFolderLeadsWithMain(key, folder, basePath);
    ChildrenUseSelectableKeys(folder, path);
    SelectableInVariant(FindIconKey(key));
    SelectableInVariant("House");
    forall m | 0 <= m < |n.items.value|
      ensures n.items.value[m].iconKey in VariantIconMap
    {
      if HasPageFile(folder) && m > 0 {
        assert n.items.value[m] == children[m - 1];
      }
    }
  }

  /** The links under one folder carry keys the smaller map knows. */
  lemma ChildrenUseSelectableKeys(folder: Listing, path: string)
    ensures var children := Transform(folder, path);
            forall j :: 0 <= j < |children| ==> children[j].iconKey in VariantIconMap
  {
    if folder.Folder? {
      var children := Transform(folder, path);
      var keys := NonFilesEntries(folder.entries);
      TransformTitlesAndUrls(folder, path);
      forall j | 0 <= j < |children|
        ensures children[j].iconKey in VariantIconMap
      {
        SelectableInVariant(FindIconKey(keys[j].0));
      }
    }
  }

  /** Every sidebar icon key other than the two unused ones is in the smaller map. */
  lemma SelectableInVariant(k: string)
    requires k in IconMap && k != "LayoutListIcon" && k != "QrCodeIcon"
    ensures k in VariantIconMap
  {
    IconMapsAgree(k);
  }
}
