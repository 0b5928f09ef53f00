/** The records the marketplace core works on — plugins, the marketplace's
    own identity, the `[Categories]` table — and the lookups into them. */
module Catalog {
  import opened Wrappers
  import opened Pairs

  /** One plugin, as the `PlugIn` record holds it after loading; every
      identifier is already a string (the record converts `plugId`,
      `category` and `pageId` with `str`). */
  datatype Plugin = Plugin(
    pageId: string,
    name: string,
    humanTitle: string,
    description: string,
    featured: bool,
    logo: string,
    license: string,
    plugId: string,
    category: string,
    installableUnit: string,
    screenshot: string,
    owner: string,
    company: string,
    companyUrl: string,
    updateUrl: string)

  /** The `MarketPlace` record: the service's own identity. */
  datatype MarketPlace = MarketPlace(
    humanTitle: string,
    desc: string,
    mpid: string,
    name: string,
    url: string,
    icon: string,
    company: string,
    companyUrl: string,
    updateUrl: string,
    mainWikiPage: string)

  /** The `[Categories]` section of the configuration: (id, display name)
      pairs in file order. */
  type CategoryTable = seq<(string, string)>

  /** What the core raises: an unbound `current_plugin` when no plugin has
      the requested id, a `KeyError` for a category id missing from the
      table, a `ValueError` from `int()`, an unreadable cached page, an
      unbound `plugin_id` when the first search hit is no plugin's page, and
      the `ValueError` of `etree.CDATA` for a text holding "]]>". */
  datatype Error =
    | PluginNotFound(plugId: string)
    | UnknownCategory(categoryId: string)
    | NotANumber(text: string)
    | PageUnreadable(pageId: string)
    | NoPluginForPage(pageId: string)
    | BadCData(text: string)

  /** The plugin data file gives every plugin its own `plugId`. */
  predicate UniquePlugIds(plugins: seq<Plugin>)
  {
    forall i, j :: 0 <= i < j < |plugins| ==> plugins[i].plugId != plugins[j].plugId
  }

  // ---------------------------------------------------------------------
  // Category table

  /** The first id, in table order, whose display name is `name`. */
  function FirstIdNamed(table: CategoryTable, name: string): (r: Option<string>)
    ensures r.None? <==> forall i :: 0 <= i < |table| ==> table[i].1 != name
    ensures r.Some? ==> exists i :: 0 <= i < |table| && table[i] == (r.value, name)
                                 && forall j :: 0 <= j < i ==> table[j].1 != name
  {
    if table == [] then None
    else if table[0].1 == name then Some(table[0].0)
    else
      var r := FirstIdNamed(table[1..], name);
      assert forall i :: 0 < i < |table| ==> table[i] == table[1..][i - 1];
      r
  }

  /** A taxonomy request may name its category by display name instead of
      id: a display name is replaced by the first id carrying it; anything
      else is kept as it is. */
  function Normalize(table: CategoryTable, category: string): string
  {
    match FirstIdNamed(table, category)
    case Some(id) => id
    case None => category
  }

  /** Normalising a display name yields an id whose name is that display
      name, even when the string is also some other category's id. */
  lemma NormalizeName(table: CategoryTable, category: string)
    requires DistinctKeys(table)
    requires exists i :: 0 <= i < |table| && table[i].1 == category
    ensures Lookup(table, Normalize(table, category)) == Some(category)
  {
    var i :| 0 <= i < |table| && table[i] == (Normalize(table, category), category);
    LookupAt(table, i);
  }

  /** A string that is no display name is left alone. */
  lemma NormalizeNonName(table: CategoryTable, category: string)
    requires forall i :: 0 <= i < |table| ==> table[i].1 != category
    ensures Normalize(table, category) == category
  {
  }

  /** Name, then id of that name, then name again gives the name back. */
  lemma NameIdNameRoundTrip(table: CategoryTable, i: nat)
    requires DistinctKeys(table) && i < |table|
    ensures Lookup(table, table[i].0).Some?
    ensures FirstIdNamed(table, Lookup(table, table[i].0).value).Some?
    ensures Lookup(table, FirstIdNamed(table, Lookup(table, table[i].0).value).value) == Lookup(table, table[i].0)
  {
    LookupAt(table, i);
    var name := table[i].1;
    var j :| 0 <= j < |table| && table[j] == (FirstIdNamed(table, name).value, name);
    LookupAt(table, j);
  }

  // ---------------------------------------------------------------------
  // Plugin lookup

  /** The key a lookup loop compares: the plugin id (node builder) or the
      wiki page id (search hits). */
  datatype KeyField = ByPlugId | ByPageId

  function KeyOf(p: Plugin, field: KeyField): string
  {
    match field
    case ByPlugId => p.plugId
    case ByPageId => p.pageId
  }

  /** The plugin a `for candidate in PLUGINS: if key matches: found = candidate`
      loop ends up with: the LAST one whose key matches. */
  function LastWith(plugins: seq<Plugin>, field: KeyField, key: string): (r: Option<Plugin>)
    ensures r.Some? ==> KeyOf(r.value, field) == key
    decreases |plugins|
  {
    if plugins == [] then None
    else if KeyOf(plugins[|plugins| - 1], field) == key then Some(plugins[|plugins| - 1])
    else LastWith(plugins[..|plugins| - 1], field, key)
  }

  /** Nothing is found exactly when no plugin has the key. */
  lemma {:induction false} LastWithNone(plugins: seq<Plugin>, field: KeyField, key: string)
    ensures LastWith(plugins, field, key).None? <==> forall j :: 0 <= j < |plugins| ==> KeyOf(plugins[j], field) != key
    decreases |plugins|
  {
    if plugins != [] {
      var init := plugins[..|plugins| - 1];
      LastWithNone(init, field, key);
      assert forall j :: 0 <= j < |init| ==> init[j] == plugins[j];
    }
  }

  /** A plugin with the key is enough for the lookup to succeed. */
  lemma LastWithFound(plugins: seq<Plugin>, field: KeyField, key: string, i: nat)
    requires i < |plugins| && KeyOf(plugins[i], field) == key
    ensures LastWith(plugins, field, key).Some?
  {
    LastWithNone(plugins, field, key);
  }

  /** What is found is a plugin with the key, and no later plugin has it. */
  lemma {:induction false} LastWithIsLast(plugins: seq<Plugin>, field: KeyField, key: string)
    requires LastWith(plugins, field, key).Some?
    ensures exists j :: 0 <= j < |plugins| && plugins[j] == LastWith(plugins, field, key).value
                        && KeyOf(plugins[j], field) == key
                        && forall k :: j < k < |plugins| ==> KeyOf(plugins[k], field) != key
    decreases |plugins|
  {
    var n := |plugins| - 1;
    if KeyOf(plugins[n], field) == key {
      assert plugins[n] == LastWith(plugins, field, key).value;
    } else {
      var init := plugins[..n];
      LastWithIsLast(init, field, key);
      var j :| 0 <= j < |init| && init[j] == LastWith(init, field, key).value
               && KeyOf(init[j], field) == key
               && forall k :: j < k < |init| ==> KeyOf(init[k], field) != key;
      assert plugins[j] == init[j];
      assert forall k :: j < k < |plugins| ==> KeyOf(plugins[k], field) != key by {
        forall k | j < k < |plugins| ensures KeyOf(plugins[k], field) != key {
          if k < n {
            assert plugins[k] == init[k];
          }
        }
      }
    }
  }

  /** The plugin found by any key is also found by its own plugin id. */
  lemma FoundByOwnId(plugins: seq<Plugin>, field: KeyField, key: string)
    requires LastWith(plugins, field, key).Some?
    ensures LastWith(plugins, ByPlugId, LastWith(plugins, field, key).value.plugId).Some?
  {
    LastWithIsLast(plugins, field, key);
    var j :| 0 <= j < |plugins| && plugins[j] == LastWith(plugins, field, key).value;
    LastWithFound(plugins, ByPlugId, plugins[j].plugId, j);
  }

  /** With unique plugin ids, looking up a plugin's id finds that plugin. */
  lemma LastWithUniqueId(plugins: seq<Plugin>, i: nat)
    requires UniquePlugIds(plugins) && i < |plugins|
    ensures LastWith(plugins, ByPlugId, plugins[i].plugId) == Some(plugins[i])
  {
    LastWithFound(plugins, ByPlugId, plugins[i].plugId, i);
    LastWithIsLast(plugins, ByPlugId, plugins[i].plugId);
    var j :| 0 <= j < |plugins| && plugins[j] == LastWith(plugins, ByPlugId, plugins[i].plugId).value
                && plugins[j].plugId == plugins[i].plugId
                && forall k :: j < k < |plugins| ==> plugins[k].plugId != plugins[i].plugId;
    assert i == j;
  }

  /** The lookup loop of the node builder and of the search wrapper. */
  method FindLast(plugins: seq<Plugin>, field: KeyField, key: string) returns (found: Option<Plugin>)
    ensures found == LastWith(plugins, field, key)
  {
    found := None;
    var i := 0;
    while i < |plugins|
      invariant 0 <= i <= |plugins|
      invariant found == LastWith(plugins[..i], field, key)
    {
      assert plugins[..i + 1][..i] == plugins[..i];
      if KeyOf(plugins[i], field) == key {
        found := Some(plugins[i]);
      }
      i := i + 1;
    }
    assert plugins[..i] == plugins;
  }
}
