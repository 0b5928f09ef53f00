/** The marketplace documents that list things: the root listing of the
    categories (`build_mp_apip`), the catalog descriptor
    (`build_mp_cat_apip`), the plugins of one category
    (`build_mp_taxonomy`) and the featured/recent/popular/favorite lists
    (`build_mp_frfp_apip`). */
module Listings {
  import opened Wrappers
  import opened Pairs
  import opened Strings
  import opened Xml
  import opened Catalog
  import opened Nodes
  import opened Seqs

  // ---------------------------------------------------------------------
  // Root listing

  /** The `market` element's attributes: the marketplace id and name, and
      its URL under `/category/markets/`. */
  function MarketAttrs(mp: MarketPlace): seq<(string, string)>
  {
    [("id", mp.mpid), ("name", mp.name), ("url", mp.url + "/category/markets/" + mp.mpid)]
  }

  lemma MarketAttrsLookup(mp: MarketPlace)
    ensures Lookup(MarketAttrs(mp), "id") == Some(mp.mpid)
    ensures Lookup(MarketAttrs(mp), "name") == Some(mp.name)
    ensures Lookup(MarketAttrs(mp), "url") == Some(mp.url + "/category/markets/" + mp.mpid)
  {
    var a := MarketAttrs(mp);
    LookupAt(a, 0); LookupAt(a, 1); LookupAt(a, 2);
  }

  /** The entry for the category `entry` = (id, display name) at 1-based
      position `count`. Its URL ends in the display NAME, not the id. */
  function CategoryEntry(mp: MarketPlace, count: nat, entry: (string, string)): Element
  {
    Empty("category", [("count", NatToString(count)), ("id", entry.0), ("name", entry.1),
                       ("url", mp.url + "/taxonomy/term/" + mp.mpid + "," + entry.1)])
  }

  lemma CategoryEntryAttrs(mp: MarketPlace, count: nat, entry: (string, string))
    ensures Attr(CategoryEntry(mp, count, entry), "count") == Some(NatToString(count))
    ensures Attr(CategoryEntry(mp, count, entry), "id") == Some(entry.0)
    ensures Attr(CategoryEntry(mp, count, entry), "name") == Some(entry.1)
    ensures Attr(CategoryEntry(mp, count, entry), "url") == Some(mp.url + "/taxonomy/term/" + mp.mpid + "," + entry.1)
  {
    var a := CategoryEntry(mp, count, entry).attrs;
    LookupAt(a, 0); LookupAt(a, 1); LookupAt(a, 2); LookupAt(a, 3);
  }

  /** One entry per row of the category table, in table order, counted from 1. */
  function RootCategories(mp: MarketPlace, table: CategoryTable): (cs: seq<Element>)
    ensures |cs| == |table|
  {
    seq(|table|, i requires 0 <= i < |table| => CategoryEntry(mp, i + 1, table[i]))
  }

  /** The root listing: a `marketplace` element holding one `market`, which
      holds the category entries. */
  method BuildRoot(mp: MarketPlace, table: CategoryTable) returns (r: Element)
    ensures r == Element("marketplace", [], None, [Element("market", MarketAttrs(mp), None, RootCategories(mp, table))])
  {
    var market := new ElementBuilder("market", MarketAttrs(mp));
    var count := 1;
    var i := 0;
    while i < |table|
      invariant 0 <= i <= |table| && count == i + 1
      invariant |market.children| == i
      invariant forall k :: 0 <= k < i ==> market.children[k] == CategoryEntry(mp, k + 1, table[k])
    {
      market.Append(CategoryEntry(mp, count, table[i]));
      count := count + 1;
      i := i + 1;
    }
    assert market.children == RootCategories(mp, table);
    r := Element("marketplace", [], None, [market.Value()]);
  }

  /** The root listing names every category of the table once, in table
      order: entry `i` carries the id and name of row `i`, and its count
      reads back as the number `i + 1`. */
  lemma RootEntries(mp: MarketPlace, table: CategoryTable, i: nat)
    requires i < |table|
    ensures Attr(RootCategories(mp, table)[i], "id") == Some(table[i].0)
    ensures Attr(RootCategories(mp, table)[i], "name") == Some(table[i].1)
    ensures ParseInt(Attr(RootCategories(mp, table)[i], "count").value) == Some(i + 1)
    ensures Attr(RootCategories(mp, table)[i], "url") == Some(mp.url + "/taxonomy/term/" + mp.mpid + "," + table[i].1)
  {
    var e := CategoryEntry(mp, i + 1, table[i]);
    assert RootCategories(mp, table)[i] == e;
    CategoryEntryAttrs(mp, i + 1, table[i]);
    ParseNatToString(i + 1);
  }

  // ---------------------------------------------------------------------
  // Catalog descriptor

  /** The three switches of the `[General]` section that turn the client's
      tabs on and off, as the strings the configuration holds. */
  datatype TabFlags = TabFlags(search: string, popular: string, recent: string)

  /** A wizard tab: enabled unless its switch is exactly "0". */
  function Tab(tag: string, flag: string, text: string): (e: Element)
    ensures e.tag == tag && e.text == Some(Plain(text)) && e.children == []
    ensures e.attrs == [("enabled", if flag == "0" then "0" else "1")]
    ensures Attr(e, "enabled") == Some("1") <==> flag != "0"
    ensures Attr(e, "enabled") == Some("0") <==> flag == "0"
  {
    Element(tag, [("enabled", if flag != "0" then "1" else "0")], Some(Plain(text)), [])
  }

  function CatalogAttrs(mp: MarketPlace): seq<(string, string)>
  {
    [("id", mp.mpid), ("title", mp.humanTitle), ("url", mp.url), ("selfContained", "1"),
     ("icon", mp.url + "/" + mp.icon)]
  }

  /** The catalog is self-contained and its icon lives under the
      marketplace's URL. */
  lemma CatalogAttrsLookup(mp: MarketPlace)
    ensures Lookup(CatalogAttrs(mp), "id") == Some(mp.mpid)
    ensures Lookup(CatalogAttrs(mp), "title") == Some(mp.humanTitle)
    ensures Lookup(CatalogAttrs(mp), "url") == Some(mp.url)
    ensures Lookup(CatalogAttrs(mp), "selfContained") == Some("1")
    ensures Lookup(CatalogAttrs(mp), "icon") == Some(mp.url + "/" + mp.icon)
  {
    var a := CatalogAttrs(mp);
    LookupAt(a, 0); LookupAt(a, 1); LookupAt(a, 2); LookupAt(a, 3); LookupAt(a, 4);
  }

  /** The wizard: an empty title, an empty `icon`, then the search, popular
      and recent tabs with their German labels. */
  function Wizard(flags: TabFlags): (w: Element)
    ensures w.tag == "wizard" && w.attrs == [("title", "")] && w.text == None
    ensures |w.children| == 4 && w.children[0] == Empty("icon", [])
    ensures w.children[1] == Tab("searchtab", flags.search, "Suche")
    ensures w.children[2] == Tab("populartab", flags.popular, "Beliebt")
    ensures w.children[3] == Tab("recenttab", flags.recent, "Neu")
  {
    Element("wizard", [("title", "")], None, [
      Empty("icon", []),
      Tab("searchtab", flags.search, "Suche"),
      Tab("populartab", flags.popular, "Beliebt"),
      Tab("recenttab", flags.recent, "Neu")])
  }

  /** The catalog descriptor: `marketplace/catalogs/catalog` with the
      marketplace's identity, its description as plain text, an empty
      `dependenciesRepository` and the wizard. */
  function CatalogDescriptor(mp: MarketPlace, flags: TabFlags): (r: Element)
    ensures r.tag == "marketplace" && r.attrs == [] && r.text == None && |r.children| == 1
    ensures r.children[0].tag == "catalogs" && r.children[0].attrs == [] && r.children[0].text == None
    ensures |r.children[0].children| == 1
    ensures r.children[0].children[0].tag == "catalog" && r.children[0].children[0].text == None
    ensures r.children[0].children[0].attrs == CatalogAttrs(mp)
    ensures r.children[0].children[0].children == [
              Leaf("description", Plain(mp.desc)), Empty("dependenciesRepository", []), Wizard(flags)]
  {
    var catalog := Element("catalog", CatalogAttrs(mp), None,
                           [Leaf("description", Plain(mp.desc)), Empty("dependenciesRepository", []), Wizard(flags)]);
    Element("marketplace", [], None, [Element("catalogs", [], None, [catalog])])
  }

  /** Every tab is switched off exactly by the string "0" in the
      configuration; "false", "" or "00" leave it on. */
  lemma TabsFollowFlags(flags: TabFlags)
    ensures Attr(Wizard(flags).children[1], "enabled") == Some(if flags.search == "0" then "0" else "1")
    ensures Attr(Wizard(flags).children[2], "enabled") == Some(if flags.popular == "0" then "0" else "1")
    ensures Attr(Wizard(flags).children[3], "enabled") == Some(if flags.recent == "0" then "0" else "1")
    ensures Attr(Wizard(TabFlags("00", "", "false")).children[1], "enabled") == Some("1")
  {
    assert "00" != "0" by { assert |"00"| != |"0"|; }
  }

  // ---------------------------------------------------------------------
  // Taxonomy

  /** `int(plugin.category) == int(category)`, when both parse. */
  predicate SameCategory(p: Plugin, category: string)
  {
    ParseInt(p.category).Some? && ParseInt(category).Some? && ParseInt(p.category).value == ParseInt(category).value
  }

  /** The plugins of a category, in plugin order. */
  function Members(plugins: seq<Plugin>, category: string): (ms: seq<Plugin>)
    ensures |ms| <= |plugins|
    decreases |plugins|
  {
    if plugins == [] then []
    else
      var init, last := plugins[..|plugins| - 1], plugins[|plugins| - 1];
      Members(init, category) + (if SameCategory(last, category) then [last] else [])
  }

  /** The first `int()` that raises while the taxonomy loop compares
      categories: each plugin's own category is converted first, then the
      requested one. With no plugins nothing is converted. */
  function FirstBadNumber(plugins: seq<Plugin>, category: string): (e: Option<Error>)
    decreases |plugins|
  {
    if plugins == [] then None
    else
      var init, last := plugins[..|plugins| - 1], plugins[|plugins| - 1];
      match FirstBadNumber(init, category)
      case Some(e) => Some(e)
      case None =>
        if ParseInt(last.category).None? then Some(NotANumber(last.category))
        else if ParseInt(category).None? then Some(NotANumber(category))
        else None
  }

  /** A node of the taxonomy: id, title and content URL, nothing inside. */
  function TaxNode(mp: MarketPlace, p: Plugin): Element
  {
    Element("node", NodeAttrs(mp, p), None, [])
  }

  /** A taxonomy node carries the same id, name and URL as the plugin's
      full node, and nothing else. */
  lemma TaxNodeIsNodeHead(mp: MarketPlace, p: Plugin)
    ensures TaxNode(mp, p).attrs == NodeElement(mp, p).attrs
    ensures Attr(TaxNode(mp, p), "id") == Some(p.plugId)
    ensures Attr(TaxNode(mp, p), "name") == Some(p.humanTitle)
    ensures Attr(TaxNode(mp, p), "url") == Some(mp.url + "/content/" + p.plugId)
    ensures TaxNode(mp, p).children == [] && TaxNode(mp, p).text == None
  {
    NodeAttrsLookup(mp, p);
  }

  /** The `favorited` sibling every taxonomy node gets. */
  const Favorited: Element := Leaf("favorited", Plain("0"))

  /** The children of the taxonomy's `category`: a node followed by a
      `favorited` for each member. */
  function TaxonomyChildren(mp: MarketPlace, members: seq<Plugin>): seq<Element>
    decreases |members|
  {
    if members == [] then []
    else TaxonomyChildren(mp, members[..|members| - 1]) + [TaxNode(mp, members[|members| - 1]), Favorited]
  }

  function HeaderAttrs(mp: MarketPlace, marketId: string, id: string, name: string): seq<(string, string)>
  {
    [("id", id), ("name", name), ("url", mp.url + "/taxonomy/term/" + marketId + "," + id)]
  }

  /** The category of a taxonomy is addressed under the requested market
      id, which need not be the marketplace's own. */
  lemma HeaderAttrsLookup(mp: MarketPlace, marketId: string, id: string, name: string)
    ensures Lookup(HeaderAttrs(mp, marketId, id, name), "id") == Some(id)
    ensures Lookup(HeaderAttrs(mp, marketId, id, name), "name") == Some(name)
    ensures Lookup(HeaderAttrs(mp, marketId, id, name), "url") == Some(mp.url + "/taxonomy/term/" + marketId + "," + id)
  {
    var a := HeaderAttrs(mp, marketId, id, name);
    LookupAt(a, 0); LookupAt(a, 1); LookupAt(a, 2);
  }

  /** The taxonomy document: the requested category with its name and
      URL, listing its members. */
  function Taxonomy(mp: MarketPlace, marketId: string, id: string, name: string, plugins: seq<Plugin>): Element
  {
    Element("marketplace", [], None, [
      Element("category", HeaderAttrs(mp, marketId, id, name), None, TaxonomyChildren(mp, Members(plugins, id)))])
  }

  /** The taxonomy of category `categoryId` (an id or a display name) as
      requested under market `marketId`. A category missing from the table
      is a KeyError; a category that is not a number is a ValueError, but
      only once a plugin is compared with it. */
  method BuildTaxonomy(mp: MarketPlace, table: CategoryTable, marketId: string, categoryId: string, plugins: seq<Plugin>)
    returns (r: Result<Element, Error>)
    requires DistinctKeys(table)
    ensures var id := Normalize(table, categoryId);
      && (Lookup(table, id).None? ==> r == Err(UnknownCategory(id)))
      && (Lookup(table, id).Some? && FirstBadNumber(plugins, id).Some? ==> r == Err(FirstBadNumber(plugins, id).value))
      && (Lookup(table, id).Some? && FirstBadNumber(plugins, id).None? ==>
            r == Ok(Taxonomy(mp, marketId, id, Lookup(table, id).value, plugins)))
  {
    var id := Normalize(table, categoryId);
    var name := Lookup(table, id);
    if name.None? {
      return Err(UnknownCategory(id));
    }
    r := ListCategory(mp, marketId, id, name.value, plugins);
  }

  /** The `category` element of the taxonomy and the loop that fills it:
      every plugin is compared by number with category `id`, and each one
      that belongs adds its node and a `favorited`. */
  method ListCategory(mp: MarketPlace, marketId: string, id: string, name: string, plugins: seq<Plugin>)
    returns (r: Result<Element, Error>)
    ensures FirstBadNumber(plugins, id).Some? ==> r == Err(FirstBadNumber(plugins, id).value)
    ensures FirstBadNumber(plugins, id).None? ==> r == Ok(Taxonomy(mp, marketId, id, name, plugins))
  {
    var category := new ElementBuilder("category", HeaderAttrs(mp, marketId, id, name));
    var i := 0;
    while i < |plugins|
      invariant 0 <= i <= |plugins|
      invariant FirstBadNumber(plugins[..i], id) == None
      invariant category.children == TaxonomyChildren(mp, Members(plugins[..i], id))
    {
      var failure := CompareCategory(mp, category, plugins, id, i);
      if failure.Some? {
        FirstBadNumberPrefix(plugins, id, i + 1);
        return Err(failure.value);
      }
      i := i + 1;
    }
    assert plugins[..i] == plugins;
    r := Ok(Element("marketplace", [], None, [category.Value()]));
  }

  /** One turn of the taxonomy loop: plugin `i` is compared by number with
      category `id` and, when it belongs, adds its node and a `favorited`. */
  method CompareCategory(mp: MarketPlace, category: ElementBuilder, plugins: seq<Plugin>, id: string, i: nat)
    returns (failure: Option<Error>)
    requires i < |plugins| && FirstBadNumber(plugins[..i], id) == None
    requires category.children == TaxonomyChildren(mp, Members(plugins[..i], id))
    modifies category
    ensures failure == FirstBadNumber(plugins[..i + 1], id)
    ensures failure.None? ==> category.children == TaxonomyChildren(mp, Members(plugins[..i + 1], id))
  {
    TaxonomyStep(mp, plugins, id, i);
    var own := ParseInt(plugins[i].category);
    var wanted := ParseInt(id);
    if own.None? || wanted.None? {
      return Some(NotANumber(if own.None? then plugins[i].category else id));
    }
    if own.value == wanted.value {
      category.Append(TaxNode(mp, plugins[i]));
      category.Append(Favorited);
    }
    failure := None;
  }

  /** One turn of the taxonomy loop: plugin `i` either raises, or is
      compared and, when it belongs, adds its node and a `favorited`. */
  lemma TaxonomyStep(mp: MarketPlace, plugins: seq<Plugin>, id: string, i: nat)
    requires i < |plugins| && FirstBadNumber(plugins[..i], id) == None
    ensures ParseInt(plugins[i].category).None? ==> FirstBadNumber(plugins[..i + 1], id) == Some(NotANumber(plugins[i].category))
    ensures ParseInt(plugins[i].category).Some? && ParseInt(id).None? ==> FirstBadNumber(plugins[..i + 1], id) == Some(NotANumber(id))
    ensures ParseInt(plugins[i].category).Some? && ParseInt(id).Some? ==>
              FirstBadNumber(plugins[..i + 1], id) == None
    ensures SameCategory(plugins[i], id) ==>
              TaxonomyChildren(mp, Members(plugins[..i + 1], id)) ==
              TaxonomyChildren(mp, Members(plugins[..i], id)) + [TaxNode(mp, plugins[i]), Favorited]
    ensures !SameCategory(plugins[i], id) ==>
              TaxonomyChildren(mp, Members(plugins[..i + 1], id)) == TaxonomyChildren(mp, Members(plugins[..i], id))
  {
    var pre, p := plugins[..i], plugins[i];
    assert plugins[..i + 1][..i] == pre;
    var ms := Members(pre, id);
    if SameCategory(p, id) {
      assert Members(plugins[..i + 1], id) == ms + [p];
      TaxonomyChildrenAppend(mp, ms, p);
    } else {
      assert Members(plugins[..i + 1], id) == ms;
    }
  }

  lemma TaxonomyChildrenAppend(mp: MarketPlace, members: seq<Plugin>, p: Plugin)
    ensures TaxonomyChildren(mp, members + [p]) == TaxonomyChildren(mp, members) + [TaxNode(mp, p), Favorited]
  {
    assert (members + [p])[..|members|] == members;
  }

  /** Once a prefix has raised, the whole list raises the same error. */
  lemma {:induction false} FirstBadNumberPrefix(plugins: seq<Plugin>, category: string, n: nat)
    requires n <= |plugins| && FirstBadNumber(plugins[..n], category).Some?
    ensures FirstBadNumber(plugins, category) == FirstBadNumber(plugins[..n], category)
    decreases |plugins| - n
  {
    if n < |plugins| {
      var m := n + 1;
      assert plugins[..m][..n] == plugins[..n];
      FirstBadNumberPrefix(plugins, category, m);
    } else {
      assert plugins[..n] == plugins;
    }
  }

  /** No ValueError exactly when there are no plugins, or the requested
      category and every plugin's category are decimal numbers. */
  lemma {:induction false} FirstBadNumberNone(plugins: seq<Plugin>, category: string)
    ensures FirstBadNumber(plugins, category).None? <==>
              plugins == [] || (IsDecimal(category) && forall j :: 0 <= j < |plugins| ==> IsDecimal(plugins[j].category))
    decreases |plugins|
  {
    if plugins != [] {
      var init := plugins[..|plugins| - 1];
      FirstBadNumberNone(init, category);
      assert forall j :: 0 <= j < |init| ==> init[j] == plugins[j];
    }
  }

  /** A raised ValueError names either the requested category or some
      plugin's category. */
  lemma {:induction false} FirstBadNumberNames(plugins: seq<Plugin>, category: string)
    requires FirstBadNumber(plugins, category).Some?
    ensures FirstBadNumber(plugins, category).value.NotANumber?
    ensures var t := FirstBadNumber(plugins, category).value.text;
              t == category || exists j :: 0 <= j < |plugins| && plugins[j].category == t
    decreases |plugins|
  {
    var init := plugins[..|plugins| - 1];
    if FirstBadNumber(init, category).Some? {
      FirstBadNumberNames(init, category);
      assert forall j :: 0 <= j < |init| ==> init[j] == plugins[j];
    }
  }

  /** A plugin is listed exactly when it is one of the plugins and its
      category is numerically the requested one. */
  lemma {:induction false} MembersIff(plugins: seq<Plugin>, category: string, p: Plugin)
    ensures p in Members(plugins, category) <==> p in plugins && SameCategory(p, category)
    decreases |plugins|
  {
    if plugins != [] {
      var init, last := plugins[..|plugins| - 1], plugins[|plugins| - 1];
      MembersIff(init, category, p);
      assert plugins == init + [last];
    }
  }

  /** The members keep the plugins' order. */
  lemma {:induction false} MembersInOrder(plugins: seq<Plugin>, category: string)
    ensures IsSubsequence(Members(plugins, category), plugins)
    decreases |plugins|
  {
    if plugins != [] {
      var init, last := plugins[..|plugins| - 1], plugins[|plugins| - 1];
      var ms := Members(plugins, category);
      MembersInOrder(init, category);
      if SameCategory(last, category) {
        assert ms[..|ms| - 1] == Members(init, category);
      } else {
        assert ms == Members(init, category);
      }
    }
  }

  /** Categories are compared as numbers: a category written "04" lists the
      same plugins as "4". */
  lemma {:induction false} MembersLeadingZero(plugins: seq<Plugin>, category: string)
    requires IsDecimal(category)
    ensures Members(plugins, "0" + category) == Members(plugins, category)
    decreases |plugins|
  {
    ParseIntLeadingZero(category);
    if plugins != [] {
      MembersLeadingZero(plugins[..|plugins| - 1], category);
    }
  }

  /** Each member gives a node and then a `favorited`, so the category has
      twice as many children as members. */
  lemma {:induction false} TaxonomyChildrenShape(mp: MarketPlace, members: seq<Plugin>)
    ensures |TaxonomyChildren(mp, members)| == 2 * |members|
    ensures forall j :: 0 <= j < |members| ==>
              TaxonomyChildren(mp, members)[2 * j] == TaxNode(mp, members[j])
              && TaxonomyChildren(mp, members)[2 * j + 1] == Favorited
    decreases |members|
  {
    if members != [] {
      var init, last := members[..|members| - 1], members[|members| - 1];
      TaxonomyChildrenShape(mp, init);
      var before := TaxonomyChildren(mp, init);
      var tc := before + [TaxNode(mp, last), Favorited];
      assert TaxonomyChildren(mp, members) == tc;
      forall j | 0 <= j < |members| ensures tc[2 * j] == TaxNode(mp, members[j]) && tc[2 * j + 1] == Favorited {
        if j < |init| {
          assert tc[2 * j] == before[2 * j] && tc[2 * j + 1] == before[2 * j + 1];
          assert init[j] == members[j];
        }
      }
    }
  }

  // ---------------------------------------------------------------------
  // Featured, recent, favorite and popular lists

  /** The plugin ids, in plugin order. */
  function PlugIds(plugins: seq<Plugin>): (ids: seq<string>)
    ensures |ids| == |plugins|
    ensures forall k :: 0 <= k < |ids| ==> LastWith(plugins, ByPlugId, ids[k]).Some?
  {
    var ids := seq(|plugins|, i requires 0 <= i < |plugins| => plugins[i].plugId);
    assert forall k :: 0 <= k < |ids| ==> LastWith(plugins, ByPlugId, ids[k]).Some? by {
      forall k | 0 <= k < |ids| ensures LastWith(plugins, ByPlugId, ids[k]).Some? {
        LastWithFound(plugins, ByPlugId, ids[k], k);
      }
    }
    ids
  }

  /** The nodes built for a list of plugin ids, each the node of the last
      plugin with that id. */
  function NodesOf(mp: MarketPlace, plugins: seq<Plugin>, ids: seq<string>): (ns: seq<Element>)
    requires forall k :: 0 <= k < |ids| ==> LastWith(plugins, ByPlugId, ids[k]).Some?
    ensures |ns| == |ids|
  {
    seq(|ids|, k requires 0 <= k < |ids| => NodeElement(mp, LastWith(plugins, ByPlugId, ids[k]).value))
  }

  /** One more id adds its node at the end. */
  lemma NodesOfAppend(mp: MarketPlace, plugins: seq<Plugin>, ids: seq<string>, id: string)
    requires forall k :: 0 <= k < |ids| ==> LastWith(plugins, ByPlugId, ids[k]).Some?
    requires LastWith(plugins, ByPlugId, id).Some?
    ensures NodesOf(mp, plugins, ids + [id]) == NodesOf(mp, plugins, ids) + [NodeElement(mp, LastWith(plugins, ByPlugId, id).value)]
  {
    var longer := ids + [id];
    var a, b := NodesOf(mp, plugins, longer), NodesOf(mp, plugins, ids);
    forall k | 0 <= k < |ids| ensures a[k] == b[k] {
      assert longer[k] == ids[k];
    }
  }

  /** The first failure of the node builder over `ids`, in order. */
  function FirstNodeFailure(plugins: seq<Plugin>, ids: seq<string>): Option<Error>
    decreases |ids|
  {
    if ids == [] then None
    else
      match FirstNodeFailure(plugins, ids[..|ids| - 1])
      case Some(e) => Some(e)
      case None => NodeFailure(plugins, ids[|ids| - 1])
  }

  /** The first failure over a prefix is the first failure over all ids. */
  lemma {:induction false} FirstNodeFailurePrefix(plugins: seq<Plugin>, ids: seq<string>, n: nat)
    requires n <= |ids| && FirstNodeFailure(plugins, ids[..n]).Some?
    ensures FirstNodeFailure(plugins, ids) == FirstNodeFailure(plugins, ids[..n])
    decreases |ids|
  {
    if n < |ids| {
      var init := ids[..|ids| - 1];
      assert init[..n] == ids[..n];
      FirstNodeFailurePrefix(plugins, init, n);
    } else {
      assert ids[..n] == ids;
    }
  }

  /** Nothing fails exactly when every id's node can be built; a failure is
      the failure of some id's node. */
  lemma {:induction false} FirstNodeFailureNone(plugins: seq<Plugin>, ids: seq<string>)
    ensures FirstNodeFailure(plugins, ids).None? <==> forall k :: 0 <= k < |ids| ==> NodeFailure(plugins, ids[k]).None?
    ensures FirstNodeFailure(plugins, ids).Some? ==>
              exists k :: 0 <= k < |ids| && FirstNodeFailure(plugins, ids) == NodeFailure(plugins, ids[k])
    decreases |ids|
  {
    if ids != [] {
      var init := ids[..|ids| - 1];
      FirstNodeFailureNone(plugins, init);
      assert forall k :: 0 <= k < |init| ==> init[k] == ids[k];
      if FirstNodeFailure(plugins, init).Some? {
        var k :| 0 <= k < |init| && FirstNodeFailure(plugins, init) == NodeFailure(plugins, init[k]);
        assert ids[k] == init[k];
      }
    }
  }

  /** One more id: its node's failure, if there was none before. */
  lemma FirstNodeFailureStep(plugins: seq<Plugin>, ids: seq<string>, i: nat)
    requires i < |ids| && FirstNodeFailure(plugins, ids[..i]).None?
    ensures FirstNodeFailure(plugins, ids[..i + 1]) == NodeFailure(plugins, ids[i])
  {
    assert ids[..i + 1][..i] == ids[..i];
  }

  /** A list of type `listType` (featured, recent, favorite, popular: all
      alike): every plugin's node, whatever its `featured` flag, under a
      count of all plugins; it fails with the first node that fails. */
  method BuildListing(mp: MarketPlace, listType: string, plugins: seq<Plugin>) returns (r: Result<Element, Error>)
    ensures var ids := PlugIds(plugins);
      && (FirstNodeFailure(plugins, ids).Some? ==> r == Err(FirstNodeFailure(plugins, ids).value))
      && (FirstNodeFailure(plugins, ids).None? ==>
            r == Ok(Element("marketplace", [], None, [
                   Element(listType, [("count", NatToString(|plugins|))], None, InsertOrder(NodesOf(mp, plugins, ids)))])))
  {
    var featured: seq<string> := [];
    var i := 0;
    while i < |plugins|
      invariant 0 <= i <= |plugins|
      invariant featured == PlugIds(plugins[..i])
    {
      assert PlugIds(plugins[..i + 1]) == featured + [plugins[i].plugId];
      featured := featured + [plugins[i].plugId];
      i := i + 1;
    }
    assert plugins[..i] == plugins;
    var list := new ElementBuilder(listType, [("count", NatToString(|featured|))]);
    var failure := InsertNodes(mp, list, featured, plugins);
    if failure.Some? {
      return Err(failure.value);
    }
    r := Ok(Element("marketplace", [], None, [list.Value()]));
  }

  /** The second loop of the list builder: the node of each id in turn is
      built and inserted at index 1 of the (initially empty) list, until a
      node fails. */
  method InsertNodes(mp: MarketPlace, list: ElementBuilder, ids: seq<string>, plugins: seq<Plugin>)
    returns (failure: Option<Error>)
    requires list.children == []
    requires forall k :: 0 <= k < |ids| ==> LastWith(plugins, ByPlugId, ids[k]).Some?
    modifies list
    ensures failure == FirstNodeFailure(plugins, ids)
    ensures failure.None? ==> list.children == InsertOrder(NodesOf(mp, plugins, ids))
  {
    ghost var all := NodesOf(mp, plugins, ids);
    var i := 0;
    while i < |ids|
      invariant 0 <= i <= |ids|
      invariant FirstNodeFailure(plugins, ids[..i]).None?
      invariant list.children == InsertOrder(all[..i])
    {
      FirstNodeFailureStep(plugins, ids, i);
      var node := BuildNode(mp, ids[i], plugins);
      if node.Err? {
        FirstNodeFailurePrefix(plugins, ids, i + 1);
        return Some(node.error);
      }
      var n := node.value;
      assert n == all[i];
      InsertOrderStep(all[..i], n);
      PrefixStep(all, i);
      list.Insert(1, n);
      i := i + 1;
    }
    assert ids[..i] == ids;
    assert all[..i] == all;
    failure := None;
  }

  /** With unique plugin ids a list is built exactly when no plugin has a
      CDATA text holding "]]>". */
  lemma ListingFailsIff(plugins: seq<Plugin>)
    requires UniquePlugIds(plugins)
    ensures FirstNodeFailure(plugins, PlugIds(plugins)).None? <==>
              forall j :: 0 <= j < |plugins| ==> FirstBadCData(CDataTexts(plugins[j])).None?
  {
    var ids := PlugIds(plugins);
    FirstNodeFailureNone(plugins, ids);
    forall j | 0 <= j < |plugins|
      ensures NodeFailure(plugins, ids[j]).None? <==> FirstBadCData(CDataTexts(plugins[j])).None?
    {
      LastWithUniqueId(plugins, j);
    }
  }

  /** With unique plugin ids the list holds each plugin's own node exactly
      once: the first plugin first, then the others from last to second. */
  lemma ListingOrder(mp: MarketPlace, plugins: seq<Plugin>)
    requires UniquePlugIds(plugins)
    ensures var listed := InsertOrder(NodesOf(mp, plugins, PlugIds(plugins)));
      && multiset(listed) == multiset(seq(|plugins|, i requires 0 <= i < |plugins| => NodeElement(mp, plugins[i])))
      && (|plugins| > 0 ==> listed[0] == NodeElement(mp, plugins[0]))
      && forall k :: 1 <= k < |plugins| ==> listed[k] == NodeElement(mp, plugins[|plugins| - k])
  {
    var own := seq(|plugins|, i requires 0 <= i < |plugins| => NodeElement(mp, plugins[i]));
    var ns := NodesOf(mp, plugins, PlugIds(plugins));
    forall i | 0 <= i < |plugins| ensures ns[i] == own[i] {
      LastWithUniqueId(plugins, i);
    }
    assert ns == own;
    InsertOrderPermutes(own);
  }
}
