# TextGridLab marketplace core, modelled in Dafny

The TextGridLab marketplace is a small web service. It answers the Eclipse
Marketplace client (the "MPC") with XML documents that describe one catalog,
its categories and the plugins in them. The same file also holds a search
over cached copies of the plugins' wiki pages, which no route calls. This
project models the document builders of
`app/main.py`. Each one becomes a Dafny method or function. The model also
states what the builders promise:

- which attributes each element carries;
- which children an element has, and in what order;
- when a request fails, and with which error.

Modules, one per part of the program:

| module | file | what it holds |
|---|---|---|
| `Wrappers`, `Seqs`, `Pairs` | `base.dfy` | `Option`, `Result`, subsequences, lookup in a list of key/value pairs (a dictionary or an element's attributes) |
| `Strings` | `strings.dfy` | the parts of Python's `int()`, `str()`, `lower()`, `in`, `startswith` and `unquote_plus` that the core relies on |
| `Xml` | `xml.dfy` | lxml elements as values; `ElementBuilder`, an element whose child list is changed in place by `SubElement` and `insert` |
| `Catalog` | `catalog.dfy` | the `PlugIn` and `MarketPlace` records, the `[Categories]` table and the plugin lookups |
| `Nodes` | `nodes.dfy` | `build_mp_node_apip` and `build_mp_content_apip` |
| `Listings` | `listings.dfy` | `build_mp_apip` (root), `build_mp_cat_apip` (catalog), `build_mp_taxonomy`, `build_mp_frfp_apip` (featured/recent/favorite/popular lists) |
| `Search` | `search.dfy` | `collect_text_nodes`, `search_files`, `build_mp_search_apip` |

The loops that build documents, look up plugins and search pages are
modelled as methods with `while` loops. Each such loop is
proved against a specification function, and the properties of
that function are proved as lemmas. Elements whose child lists the source
grows with `insert(1, …)` are `ElementBuilder` objects. The loop and the
comprehension that turn the category table into a dictionary and find an
id by name are the functions `Pairs.Lookup` and `Catalog.FirstIdNamed`.

Points where the code's behaviour is easy to misread; the model follows the
code:

- **Root category URLs.** A root-listing category's URL ends in the category's
  display name, not its id (`app/main.py:285`).
- **Market URL.** The market URL is `…/category/markets/<id>`.
- **Catalog tab texts.** The tab texts are German: "Suche", "Beliebt", "Neu".
- **Order of list and search nodes.** Nodes are inserted at index 1 one after
  another. The first node stays first, and the later ones follow in reverse
  order: 1, n, n-1, …, 2 (`Xml.InsertOrder`).
- **Plugin lookups.** A lookup by id or by page keeps the LAST plugin that
  matches, because the loop never breaks.
- **Search hits.** A search hit whose page belongs to no plugin reuses the
  plugin id of the previous hit. When the first hit belongs to no plugin, the
  variable is unbound and the request fails (`Error.NoPluginForPage`).
- **Taxonomy comparison.** The taxonomy compares categories with `int()` on
  both sides. A category that is not a number raises an error, but only once
  a plugin is compared with it.
- **List flags.** A list of any type holds every plugin, whatever its
  `featured` flag. The "count" is the number of all plugins.
- **CDATA.** `etree.CDATA` raises `ValueError` for a text holding "]]>".
  A plugin whose description, company, home page, image, owner, screenshot
  or update URL holds it makes its node, and every list or search result
  containing that node, fail (`Error.BadCData`).

## Model

| member | source | states |
|---|---|---|
| `Strings.ParseInt` | app/main.py:351 | `int()` of a string succeeds exactly when the string is a non-empty run of decimal digits |
| `Strings.ParseNatToString` | app/main.py:282 | `str(n)` read back with `int()` gives `n` (the category count round trip) |
| `Strings.ParseIntLeadingZero` | app/main.py:351 | `int("0" + s) == int(s)`: leading zeros do not change a category number |
| `Strings.Contains` | app/main.py:233 | `needle in hay` holds exactly when `needle` occurs at some position of `hay` |
| `Strings.ContainsInMiddle` | app/main.py:233 | a substring of a part is a substring of the whole |
| `Strings.LowerAppend` | app/main.py:233 | the modelled `lower()` (ASCII and Latin-1, see "Left out") works character by character, so it distributes over concatenation |
| `Strings.EmptyIsContained` | app/main.py:233 | the empty string is in every string |
| `Strings.UnquoteQuotePlus` | app/main.py:226 | `unquote_plus(quote_plus(s)) == s` for ASCII `s`, where `Strings.UnquotePlus` models `unquote_plus` |
| `Pairs.Lookup` | app/main.py:332-335 | `get(key)` on an element's attributes and `cate_dict[key]` on the category table: absent exactly when no pair has that key, and otherwise a value stored under that key |
| `Pairs.LookupAt` | app/main.py:332-335 | with distinct keys, each pair is found under its own key |
| `Xml.InsertAt` | app/main.py:448 | `insert(i, x)` puts `x` at index `i`, keeping the children before and after, or appends it when `i` is past the end |
| `Xml.InsertOrderStep` | app/main.py:446-448 | one more `insert(1, x)` extends the insertion order of the earlier elements by `x` |
| `Xml.InsertOrderPermutes` | app/main.py:446-448 | repeated `insert(1, ·)` into an empty parent is a permutation: the first stays first, the rest are reversed |
| `Xml.ReverseAt` | app/main.py:446-448 | element `k` of the reversal is element `n-1-k` of the input |
| `Xml.ReversePermutes` | app/main.py:446-448 | reversal is a permutation |
| `Xml.ElementBuilder.constructor` | app/main.py:269 | `etree.Element(tag, attrs)` has that tag and those attributes, and no children |
| `Xml.ElementBuilder.Append` | app/main.py:281-285 | `SubElement` adds exactly one child, at the end |
| `Xml.ElementBuilder.Insert` | app/main.py:448 | `insert(i, x)` changes the child list to `InsertAt(old children, i, x)` |
| `Catalog.FirstIdNamed` | app/main.py:338 | the first id whose name equals the argument is absent exactly when no entry has that name, and otherwise names such an entry |
| `Catalog.NormalizeName` | app/main.py:337-338 | `Catalog.Normalize` replaces a display name by an id whose name it is |
| `Catalog.NormalizeNonName` | app/main.py:337-338 | `Catalog.Normalize` keeps a category that is no display name as it is |
| `Catalog.NameIdNameRoundTrip` | app/main.py:332-338 | id to name to id to name gives back the same name |
| `Catalog.LastWith` | app/main.py:369-371 | a plugin the lookup finds has the key that was looked up |
| `Catalog.LastWithNone` | app/main.py:369-371 | the lookup finds nothing exactly when no plugin has the key |
| `Catalog.LastWithFound` | app/main.py:369-371 | a plugin with the key is enough for the lookup to succeed |
| `Catalog.LastWithIsLast` | app/main.py:369-371 | the plugin found is one of the plugins, and no later plugin has the key |
| `Catalog.FoundByOwnId` | app/main.py:476-479 | the id of a plugin found by page is itself found by id |
| `Catalog.LastWithUniqueId` | app/main.py:369-371 | with unique ids, looking up a plugin's id gives that plugin |
| `Catalog.FindLast` | app/main.py:369-371 | the lookup loop returns the `LastWith` plugin |
| `Nodes.ImageUrl` | app/main.py:400-403 | a logo beginning with "http" is used as it is, and any other logo is a wiki page attachment |
| `Nodes.NodeAttrsLookup` | app/main.py:373-376 | a node's id, name and url attributes are the plugin id, the title and `url/content/<plugId>` |
| `Nodes.CategoryRef` | app/main.py:382-385 | the inner `categories` element has no children |
| `Nodes.CategoryRefAttrs` | app/main.py:382-385 | the inner `categories` carries the plugin's category id, the plugin's title as its name, and the taxonomy URL |
| `Nodes.FixedChild` | app/main.py:378-412 | each of the 14 fixed children has its tag; the body, image and ius children carry the description, the image URL and the installable unit |
| `Nodes.NodeElement` | app/main.py:373-419 | a node has 16 children with a screenshot and 15 without; the first 14 are the fixed children, the screenshot is a wiki attachment (never checked for "http"), and the update URL is last |
| `Nodes.NodeElementAttrs` | app/main.py:373-376 | a node is identified by the plugin id and titled with its title |
| `Nodes.FixedTagNotScreenshot` | app/main.py:378-412 | no fixed child is called `screenshot` |
| `Nodes.ScreenshotIffGiven` | app/main.py:415-416 | a node has a `screenshot` child exactly when the plugin names a screenshot |
| `Nodes.FirstBadCDataIsFirst` | app/main.py:378-418 | no CDATA text is refused exactly when none holds "]]>"; a refused text is the first that holds it |
| `Nodes.NodeCDataChecked` | app/main.py:378-418 | every child of a node whose text is CDATA holds one of the texts the builder checks |
| `Nodes.NodeFailureIff` | app/main.py:369-418 | `Nodes.NodeFailure`, the failure of the node builder: a node builds exactly when some plugin has the id and none of its CDATA texts holds "]]>"; it fails with `PluginNotFound` exactly when no plugin has the id; a refused text holds "]]>" |
| `Nodes.BuildNode` | app/main.py:362-420 | fails exactly as `NodeFailure` says: first an unbound `current_plugin`, then the first refused CDATA text; otherwise gives the node of the last plugin with that id, whose id is the requested one |
| `Nodes.BuildContent` | app/main.py:453-461 | fails exactly when the node builder fails; otherwise a bare `marketplace` element, with no attributes and no text, whose only child is that plugin's node |
| `Listings.MarketAttrsLookup` | app/main.py:270-273 | the market's id and name are the marketplace's, and its URL is `url/category/markets/<id>` |
| `Listings.CategoryEntryAttrs` | app/main.py:281-285 | a root category entry carries its count, its id and its name, and a URL that ends in the NAME |
| `Listings.RootCategories` | app/main.py:280-288 | one entry per table row |
| `Listings.BuildRoot` | app/main.py:265-289 | the root document is `marketplace/market` with the market attributes and one category entry per table row, in table order, counted from 1 |
| `Listings.RootEntries` | app/main.py:279-288 | entry `i` has the id and name of row `i`, and a count that reads back as `i+1` |
| `Listings.Tab` | app/main.py:311-322 | a tab carries only its `enabled` attribute, its label as text and no children; it is enabled ("1") exactly when its flag is not the string "0", and disabled ("0") exactly when it is |
| `Listings.CatalogAttrsLookup` | app/main.py:300-305 | the catalog carries the id, the title, the URL, `selfContained="1"` and `url/<icon>` |
| `Listings.Wizard` | app/main.py:308-322 | the wizard has only an empty `title` attribute, no text and exactly four children: icon, then the search, popular and recent tabs with German texts |
| `Listings.CatalogDescriptor` | app/main.py:298-324 | `marketplace/catalogs/catalog`, with no attributes or text on the outer two and none on `catalog`, whose attributes are the catalog's and whose children are the description, the dependencies repository and the wizard |
| `Listings.TabsFollowFlags` | app/main.py:311-322 | each tab follows its flag; only the exact string "0" disables a tab ("00" does not) |
| `Listings.Members` | app/main.py:350-351 | a category has no more members than there are plugins (what the members are is `MembersIff` and `MembersInOrder`) |
| `Listings.TaxNodeIsNodeHead` | app/main.py:352-355 | a taxonomy node has the attributes of the plugin's full node, and no text or children |
| `Listings.HeaderAttrsLookup` | app/main.py:342-345 | the category header uses the requested market id in its URL |
| `Listings.BuildTaxonomy` | app/main.py:327-359 | an unknown category is a KeyError; otherwise the first failing `int()` is a ValueError; otherwise the document lists the category's members |
| `Listings.ListCategory` | app/main.py:341-359 | the loop either stops at the first failing `int()` or builds the taxonomy document |
| `Listings.CompareCategory` | app/main.py:351-357 | one turn of the loop fails exactly as the first failing conversion of the plugins so far says, and otherwise appends a node and a `favorited` exactly when the plugin belongs |
| `Listings.TaxonomyStep` | app/main.py:350-357 | one step of the loop: either the failing conversion, or a node and a `favorited` appended exactly when the plugin belongs |
| `Listings.TaxonomyChildrenAppend` | app/main.py:352-357 | each member adds its node and a `favorited` at the end |
| `Listings.FirstBadNumberPrefix` | app/main.py:351 | the first failing conversion of a prefix is the first of the whole list |
| `Listings.FirstBadNumberNone` | app/main.py:351 | no conversion fails exactly when there are no plugins, or every plugin category and the requested category are numbers |
| `Listings.FirstBadNumberNames` | app/main.py:351 | the failing text is some plugin's category or the requested category |
| `Listings.MembersIff` | app/main.py:350-351 | a plugin is listed exactly when it is a plugin whose category equals the requested one by number |
| `Listings.MembersInOrder` | app/main.py:350-357 | members are listed in plugin order |
| `Listings.MembersLeadingZero` | app/main.py:351 | "05" lists the same plugins as "5" |
| `Listings.TaxonomyChildrenShape` | app/main.py:352-357 | the taxonomy has two children per member: member `j`'s node at index `2j` and a `favorited` after it |
| `Listings.PlugIds` | app/main.py:433-438 | one id per plugin, each of which the node builder finds |
| `Listings.NodesOfAppend` | app/main.py:446-447 | one more id adds its node at the end |
| `Listings.FirstNodeFailurePrefix` | app/main.py:446-448 | the first node failure over a prefix of the ids is the first over all of them |
| `Listings.FirstNodeFailureNone` | app/main.py:446-448 | no node fails exactly when every id's node builds; a failure is some id's node failure |
| `Listings.FirstNodeFailureStep` | app/main.py:446-448 | one more id adds its node's failure when there was none before |
| `Listings.BuildListing` | app/main.py:422-451 | fails with the first node that fails; otherwise the list element has the requested type and the count of all plugins, and its children are the nodes of all plugin ids in insertion order |
| `Listings.InsertNodes` | app/main.py:446-448 | the insert loop stops at the first node that fails, or leaves the nodes in insertion order |
| `Listings.ListingFailsIff` | app/main.py:446-448 | with unique ids a list builds exactly when no plugin has a CDATA text holding "]]>" |
| `Listings.ListingOrder` | app/main.py:433-448 | with unique ids the list holds every plugin's own node exactly once: the first plugin first, the others from last to second |
| `Search.CollectTextNodes` | app/main.py:239-260 | the loop computes `PageText`: each string cell that is not layout, followed by a space |
| `Search.PageTextAppend` | app/main.py:249-258 | `Search.PageText`, the text `collect_text_nodes` gathers: the page text of two runs of cells is the concatenation of their texts |
| `Search.PageTextEndsInSpace` | app/main.py:256-258 | page text is empty or ends in a space |
| `Search.QueryInCellMatches` | app/main.py:233 | a query found case-insensitively in one kept cell matches the page |
| `Search.EmptyQueryMatches` | app/main.py:233 | the empty query matches every page |
| `Search.SearchFiles` | app/main.py:199-237 | the search decodes the string once and returns `SearchResult` of the decoded query |
| `Search.SearchErrStays` | app/main.py:228-231 | a page that cannot be read stops the search |
| `Search.SearchErrIff` | app/main.py:228-231 | `Search.SearchResult`, what `search_files` returns for a decoded query: the search fails exactly when some listed page is missing, and then it names the first missing page |
| `Search.SearchHitsIff` | app/main.py:228-234 | `Search.SearchResult`: an id is a hit exactly when it is listed, its page exists and the page matches |
| `Search.SearchHitsInOrder` | app/main.py:228-236 | hits come in the order of the listed ids |
| `Search.EmptyQueryFindsAll` | app/main.py:226-236 | the empty query hits every page |
| `Search.QuotedQuerySearchesQuery` | app/main.py:226-236 | with a decoder that agrees with `unquote_plus`, a query quoted by `quote_plus` gets the hits of the query itself |
| `Search.EmptySearchStringFindsAll` | app/main.py:226-236 | with such a decoder, an empty search string hits every listed page |
| `Search.ResolvedIds` | app/main.py:474-479 | the resolved ids are one per hit, and the node builder finds each of them |
| `Search.ResolvedIdsSome` | app/main.py:474-479 | resolving fails exactly when the first hit is no plugin's page |
| `Search.ResolvedIdsAt` | app/main.py:474-479 | a hit that is a plugin's page gets the id of the last plugin with that page; any other hit repeats the previous id |
| `Search.ResolvedStep` | app/main.py:474-479 | one step of the resolving loop extends the ids by the page's plugin id or the previous one |
| `Search.ResolvedIdsPrefix` | app/main.py:474-479 | resolving a prefix of the hits gives the prefix of resolving all of them |
| `Search.BuildSearch` | app/main.py:463-483 | a failed search is passed on; an unresolved first hit fails; then the first node that fails; otherwise `search` carries the raw term and the hit count and holds the hits' nodes in insertion order |
| `Search.InsertHitNodes` | app/main.py:474-480 | the hit loop fails at an unresolvable first hit or at the first node that fails, or leaves the nodes of the resolved ids in insertion order |
| `Search.InsertHit` | app/main.py:475-480 | one turn of the hit loop fails as the whole loop does, or extends the resolved ids and inserts that plugin's node at index 1 |
| `Search.ResolveHit` | app/main.py:476-478 | the inner loop gives the id of the last plugin whose page is the hit, or keeps the previous id; it has none exactly at an unresolvable first hit |
| `Search.FailureOfHits` | app/main.py:474-480 | a node that fails for the first hits is the first failure of all the hits |
| `Search.InsertHitNode` | app/main.py:479-480 | one pass builds the plugin's node and inserts it at index 1, or fails as the node builder does |
| `Search.SearchNodeOfHit` | app/main.py:474-480 | with unique ids, the node of a hit that is a plugin's page is that plugin's own node |

## Left out

- The FastAPI application, its routes, `xmlresponse`, `check_urls` and the HTTP error handlers are left out. They are I/O around the builders.
- Configuration loading (`ConfigParser`, environment overrides, logging set-up) is left out. The marketplace record, the category table and the tab flags are parameters. The table's ids are assumed pairwise distinct (`Pairs.DistinctKeys`), because the parser refuses repeated keys. `ConfigParser`'s lower-casing of keys and its `DEFAULT` section are not modelled.
- Loading `data.yaml` (`load_data`, `plugin_constructor`) is left out. The plugins are a parameter. `plugId`, `category` and `pageId` are converted with `str` as `PlugIn.__init__` does (app/main.py:141, 144-145); every other field is assumed to be a string in the data file. An empty value (`None`) or a number there, which makes the source raise `TypeError` when it writes the node, is not modelled. The configured defaults for owner, company, company URL and update URL are not modelled.
- Reading and parsing the cached wiki pages is left out. A page is given as the texts of its `td` cells (`Search.Pages`), and a page that is missing from the map stands for a file that cannot be read.
- `Search.SearchFiles`: the pages are given as a map, where the source names them under `CACHE_DIR`, which nothing in `app/main.py` defines (app/main.py:229). As written, the source raises `NameError` for any non-empty list of pages.
- `Search.SearchFiles` and `Search.BuildSearch` take `unquote_plus` as a function parameter. `Strings.UnquotePlus` models only its ASCII part: percent escapes above 0x7F and their UTF-8 decoding are not modelled. `Search.DecodesAsUnquotePlus` ties the parameter to that model.
- `Strings.ParseInt` models `int()` only on ASCII decimal digits. Signs, surrounding whitespace, underscores and non-ASCII digits, which `int()` also accepts, are treated as errors.
- `Strings.LowerChar` lower-cases only ASCII and Latin-1 capitals. Python's full Unicode case mapping is not modelled.
- `Xml.InsertAt` models `insert` only for non-negative indices, which is the only kind the source uses.
- Serialisation to text (entity escaping, the XML declaration) is not modelled. CDATA and plain text are kept apart in `Xml.Text`.
- `Nodes.BuildNode`: lxml also raises `ValueError` for a text or attribute value holding NUL or another character XML does not allow. The model does not check characters, so its contract holds only for texts free of them. Of lxml's checks, only "]]>" inside CDATA is modelled.
- `Nodes.BuildContent`: the same unmodelled character check applies, through the node builder.
- `Listings.BuildListing`: lxml raises `ValueError` when `listType` is not a valid XML tag name (app/main.py:444). It also raises for characters XML does not allow. Neither is modelled, so the contract assumes a valid tag name and texts free of such characters.
- `Search.BuildSearch`: the same unmodelled character check applies to the search term and to the nodes.
- `Listings.BuildRoot`, `Listings.CatalogDescriptor` and `Listings.BuildTaxonomy`: the same unmodelled character check applies to the configured values they write.
- Elements built with `SubElement` whose children never change afterwards are modelled as values (`Element`), not as builders.
- `Nodes.NodeFailure`: the source's error is an unbound local variable, and the model returns `PluginNotFound` in its place. The same holds for `NoPluginForPage` in the search, for `UnknownCategory` (a `KeyError`) and for `NotANumber` (a `ValueError`).
- The `TGLab` class, `msInterface.py` and the tests are not part of this model.
