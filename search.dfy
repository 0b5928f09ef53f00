/** Full-text search over the plugins' cached wiki pages (`search_files`,
    `collect_text_nodes`) and the search result document
    (`build_mp_search_apip`). A cached page is given as the texts of its
    `td` cells in document order (`None` for a cell without text). */
module Search {
  import opened Wrappers
  import opened Seqs
  import opened Strings
  import opened Xml
  import opened Catalog
  import opened Nodes
  import opened Listings

  type Cells = seq<Option<string>>

  /** The cached pages that exist, by wiki page id. */
  type Pages = map<string, Cells>

  // ---------------------------------------------------------------------
  // Text of a page

  /** A text that `re.match(r'\n +', text)` accepts: a newline followed by
      at least one space (layout between cells, not content). */
  predicate IsLayout(t: string)
  {
    |t| >= 2 && t[0] == '\n' && t[1] == ' '
  }

  /** What one cell adds to the page text: its text and a space, unless it
      has none or is layout. */
  function CellText(cell: Option<string>): string
  {
    match cell
    case None => ""
    case Some(t) => if IsLayout(t) then "" else t + " "
  }

  /** The text of a page: the contributions of its cells, in order. */
  function PageText(cells: Cells): string
    decreases |cells|
  {
    if cells == [] then "" else PageText(cells[..|cells| - 1]) + CellText(cells[|cells| - 1])
  }

  /** `collect_text_nodes`. */
  method CollectTextNodes(cells: Cells) returns (result: string)
    ensures result == PageText(cells)
  {
    result := "";
    var i := 0;
    while i < |cells|
      invariant 0 <= i <= |cells|
      invariant result == PageText(cells[..i])
    {
      PrefixStep(cells, i);
      var node := cells[i];
      i := i + 1;
      if node.None? {
        continue;
      }
      if IsLayout(node.value) {
        continue;
      }
      result := result + node.value;
      result := result + " ";
    }
    assert cells[..i] == cells;
  }

  /** The page text of two runs of cells is the text of the first followed
      by the text of the second. */
  lemma {:induction false} PageTextAppend(a: Cells, b: Cells)
    ensures PageText(a + b) == PageText(a) + PageText(b)
    decreases |b|
  {
    if b != [] {
      var init, last := b[..|b| - 1], b[|b| - 1];
      var ab := a + b;
      PageTextAppend(a, init);
      assert ab[..|ab| - 1] == a + init;
      assert ab[|ab| - 1] == last;
      var x, y, z := PageText(a), PageText(init), CellText(last);
      assert PageText(ab) == PageText(a + init) + z;
      assert PageText(b) == y + z;
      assert (x + y) + z == x + (y + z);
    } else {
      assert a + b == a;
    }
  }

  /** The page text is empty or ends in the space added after a cell. */
  lemma PageTextEndsInSpace(cells: Cells)
    ensures PageText(cells) == [] || PageText(cells)[|PageText(cells)| - 1] == ' '
    decreases |cells|
  {
    if cells != [] {
      PageTextEndsInSpace(cells[..|cells| - 1]);
    }
  }

  /** `query.lower() in text.lower()` for the text of a page. */
  predicate Matches(query: string, cells: Cells)
  {
    Contains(Lower(PageText(cells)), Lower(query))
  }

  /** A query found (ignoring case) in the text of any content cell finds
      the page. */
  lemma QueryInCellMatches(query: string, cells: Cells, k: nat)
    requires k < |cells| && cells[k].Some? && !IsLayout(cells[k].value)
    requires Contains(Lower(cells[k].value), Lower(query))
    ensures Matches(query, cells)
  {
    var t := cells[k].value;
    var pre, post := cells[..k], cells[k + 1..];
    assert cells == pre + [cells[k]] + post;
    PageTextAppend(pre + [cells[k]], post);
    PageTextAppend(pre, [cells[k]]);
    assert PageText([cells[k]]) == t + " " by {
      assert [cells[k]][..0] == [];
    }
    var before, rest := PageText(pre), PageText(post);
    var whole := PageText(cells);
    assert whole == before + (t + " ") + rest;
    Regroup(before, t, " ", rest);
    LowerAppend(before + t, " " + rest);
    LowerAppend(before, t);
    ContainsInMiddle(Lower(before), Lower(t), Lower(" " + rest), Lower(query));
  }

  /** Moves the cut between the second and third of four strings. */
  lemma Regroup(a: string, b: string, c: string, d: string)
    ensures a + (b + c) + d == (a + b) + (c + d)
  {
  }

  /** The empty query matches every page. */
  lemma EmptyQueryMatches(cells: Cells)
    ensures Matches("", cells)
  {
    EmptyIsContained(Lower(PageText(cells)));
  }

  // ---------------------------------------------------------------------
  // search_files

  /** The outcome of searching the pages `lopi` for the (already decoded)
      `query`: the ids whose page text contains it, in `lopi` order, or the
      first page that cannot be read. */
  function SearchResult(query: string, lopi: seq<string>, pages: Pages): Result<seq<string>, Error>
    decreases |lopi|
  {
    if lopi == [] then Ok([])
    else
      var id := lopi[|lopi| - 1];
      match SearchResult(query, lopi[..|lopi| - 1], pages)
      case Err(e) => Err(e)
      case Ok(hits) =>
        if id !in pages then Err(PageUnreadable(id))
        else if Matches(query, pages[id]) then Ok(hits + [id])
        else Ok(hits)
  }

  /** `search_files`: `unquote` is `urllib.parse.unquote_plus`, applied to
      the search string once before the pages are searched. */
  method SearchFiles(searchString: string, unquote: string -> string, lopi: seq<string>, pages: Pages)
    returns (r: Result<seq<string>, Error>)
    ensures r == SearchResult(unquote(searchString), lopi, pages)
  {
    var query := unquote(searchString);
    var hits: seq<string> := [];
    var i := 0;
    while i < |lopi|
      invariant 0 <= i <= |lopi|
      invariant SearchResult(query, lopi[..i], pages) == Ok(hits)
    {
      PrefixStep(lopi, i);
      var pluginId := lopi[i];
      assert lopi[..i + 1][..i] == lopi[..i];
      if pluginId !in pages {
        r := Err(PageUnreadable(pluginId));
        SearchErrStays(query, lopi, pages, i + 1);
        return;
      }
      var textnodes := CollectTextNodes(pages[pluginId]);
      if Contains(Lower(textnodes), Lower(query)) {
        hits := hits + [pluginId];
      }
      i := i + 1;
    }
    assert lopi[..i] == lopi;
    r := Ok(hits);
  }

  /** Once a prefix of the page list fails, the whole search fails the same way. */
  lemma {:induction false} SearchErrStays(query: string, lopi: seq<string>, pages: Pages, n: nat)
    requires n <= |lopi| && SearchResult(query, lopi[..n], pages).Err?
    ensures SearchResult(query, lopi, pages) == SearchResult(query, lopi[..n], pages)
    decreases |lopi| - n
  {
    if n < |lopi| {
      assert lopi[..n + 1][..n] == lopi[..n];
      SearchErrStays(query, lopi, pages, n + 1);
    } else {
      assert lopi[..n] == lopi;
    }
  }

  /** The search fails exactly when some listed page is missing, and then
      names the first missing one. */
  lemma {:induction false} SearchErrIff(query: string, lopi: seq<string>, pages: Pages)
    ensures SearchResult(query, lopi, pages).Err? <==> exists k :: 0 <= k < |lopi| && lopi[k] !in pages
    ensures SearchResult(query, lopi, pages).Err? ==>
              exists k :: 0 <= k < |lopi| && lopi[k] !in pages
                          && SearchResult(query, lopi, pages).error == PageUnreadable(lopi[k])
                          && forall j :: 0 <= j < k ==> lopi[j] in pages
    decreases |lopi|
  {
    if lopi != [] {
      var init := lopi[..|lopi| - 1];
      SearchErrIff(query, init, pages);
      assert forall j :: 0 <= j < |init| ==> init[j] == lopi[j];
    }
  }

  /** An id is a hit exactly when it is listed and its page matches. */
  lemma {:induction false} SearchHitsIff(query: string, lopi: seq<string>, pages: Pages, id: string)
    requires SearchResult(query, lopi, pages).Ok?
    ensures id in SearchResult(query, lopi, pages).value <==> id in lopi && id in pages && Matches(query, pages[id])
    decreases |lopi|
  {
    if lopi != [] {
      var init := lopi[..|lopi| - 1];
      SearchHitsIff(query, init, pages, id);
      assert lopi == init + [lopi[|lopi| - 1]];
    }
  }

  /** Hits keep the order of the page list. */
  lemma {:induction false} SearchHitsInOrder(query: string, lopi: seq<string>, pages: Pages)
    requires SearchResult(query, lopi, pages).Ok?
    ensures IsSubsequence(SearchResult(query, lopi, pages).value, lopi)
    decreases |lopi|
  {
    if lopi != [] {
      var init, id := lopi[..|lopi| - 1], lopi[|lopi| - 1];
      SearchHitsInOrder(query, init, pages);
      var hits := SearchResult(query, lopi, pages).value;
      if Matches(query, pages[id]) {
        assert hits[..|hits| - 1] == SearchResult(query, init, pages).value;
      }
    }
  }

  /** An empty search string finds every listed page. */
  lemma {:induction false} EmptyQueryFindsAll(lopi: seq<string>, pages: Pages)
    requires forall k :: 0 <= k < |lopi| ==> lopi[k] in pages
    ensures SearchResult("", lopi, pages) == Ok(lopi)
    decreases |lopi|
  {
    if lopi != [] {
      var init := lopi[..|lopi| - 1];
      EmptyQueryFindsAll(init, pages);
      EmptyQueryMatches(pages[lopi[|lopi| - 1]]);
      assert init + [lopi[|lopi| - 1]] == lopi;
    }
  }

  // ---------------------------------------------------------------------
  // build_mp_search_apip

  /** The plugin ids the search result builder passes to the node builder,
      one per hit: the id of the last plugin whose page is the hit, or, when
      no plugin has that page, the id left over from the previous hit (the
      variable is not reset between hits). `None` when the first hit has no
      plugin: the variable is then unbound. */
  function ResolvedIds(hits: seq<string>, plugins: seq<Plugin>): (r: Option<seq<string>>)
    ensures r.Some? ==> |r.value| == |hits|
    ensures r.Some? ==> forall k :: 0 <= k < |hits| ==> LastWith(plugins, ByPlugId, r.value[k]).Some?
    decreases |hits|
  {
    if hits == [] then Some([])
    else
      match ResolvedIds(hits[..|hits| - 1], plugins)
      case None => None
      case Some(ids) =>
        match LastWith(plugins, ByPageId, hits[|hits| - 1])
        case Some(p) =>
          FoundByOwnId(plugins, ByPageId, hits[|hits| - 1]);
          Some(ids + [p.plugId])
        case None =>
          if ids == [] then None else Some(ids + [ids[|ids| - 1]])
  }

  /** The ids resolve exactly when the first hit is some plugin's page. */
  lemma {:induction false} ResolvedIdsSome(hits: seq<string>, plugins: seq<Plugin>)
    ensures ResolvedIds(hits, plugins).None? <==> |hits| > 0 && LastWith(plugins, ByPageId, hits[0]).None?
    decreases |hits|
  {
    if |hits| > 1 {
      var init := hits[..|hits| - 1];
      ResolvedIdsSome(init, plugins);
      assert init[0] == hits[0];
    } else if |hits| == 1 {
      assert hits[..0] == [];
    }
  }

  /** A hit that is some plugin's page is shown with the id of the last
      plugin having that page; any other hit repeats the previous hit's id. */
  lemma {:induction false} ResolvedIdsAt(hits: seq<string>, plugins: seq<Plugin>, k: nat)
    requires ResolvedIds(hits, plugins).Some? && k < |hits|
    ensures LastWith(plugins, ByPageId, hits[k]).Some? ==>
              ResolvedIds(hits, plugins).value[k] == LastWith(plugins, ByPageId, hits[k]).value.plugId
    ensures LastWith(plugins, ByPageId, hits[k]).None? ==>
              k > 0 && ResolvedIds(hits, plugins).value[k] == ResolvedIds(hits, plugins).value[k - 1]
    decreases |hits|
  {
    var n := |hits| - 1;
    var init := hits[..n];
    var ids := ResolvedIds(hits, plugins).value;
    if k == 0 && n == 0 {
      assert ids == [LastWith(plugins, ByPageId, hits[0]).value.plugId];
    } else {
      ResolvedIdsSome(hits, plugins);
      ResolvedIdsSome(init, plugins);
      var before := ResolvedIds(init, plugins).value;
      assert ids[..n] == before;
      if k < n {
        ResolvedIdsAt(init, plugins, k);
        assert init[k] == hits[k];
        if k > 0 {
          assert ids[k - 1] == before[k - 1];
        }
      }
    }
  }

  /** The search result document: the raw search string and the number of
      hits on `search`, and the nodes inserted at index 1 one after another. */
  function SearchDocument(mp: MarketPlace, searchString: string, count: nat, plugins: seq<Plugin>, ids: seq<string>): Element
    requires forall k :: 0 <= k < |ids| ==> LastWith(plugins, ByPlugId, ids[k]).Some?
  {
    Element("marketplace", [], None, [
      Element("search", [("term", searchString), ("count", NatToString(count))], None,
              InsertOrder(NodesOf(mp, plugins, ids)))])
  }

  /** `unquote` agrees with `unquote_plus` wherever its ASCII model
      (`UnquotePlus`) gives a result. */
  ghost predicate DecodesAsUnquotePlus(unquote: string -> string)
  {
    forall s :: UnquotePlus(s).Some? ==> unquote(s) == UnquotePlus(s).value
  }

  /** A client that quotes an ASCII query with `quote_plus` gets the hits of
      the query itself. */
  lemma QuotedQuerySearchesQuery(q: string, unquote: string -> string, lopi: seq<string>, pages: Pages)
    requires IsAscii(q) && DecodesAsUnquotePlus(unquote)
    ensures SearchResult(unquote(QuotePlus(q)), lopi, pages) == SearchResult(q, lopi, pages)
  {
    UnquoteQuotePlus(q);
  }

  /** An empty search string decodes to the empty query, which hits every
      listed page. */
  lemma EmptySearchStringFindsAll(unquote: string -> string, lopi: seq<string>, pages: Pages)
    requires DecodesAsUnquotePlus(unquote)
    requires forall k :: 0 <= k < |lopi| ==> lopi[k] in pages
    ensures SearchResult(unquote(""), lopi, pages) == Ok(lopi)
  {
    assert UnquotePlus("") == Some("");
    EmptyQueryFindsAll(lopi, pages);
  }

  /** `build_mp_search_apip`. */
  method BuildSearch(mp: MarketPlace, searchString: string, unquote: string -> string, lopi: seq<string>,
                     pages: Pages, plugins: seq<Plugin>)
    returns (r: Result<Element, Error>)
    ensures var found := SearchResult(unquote(searchString), lopi, pages);
      && (found.Err? ==> r == Err(found.error))
      && (found.Ok? && ResolvedIds(found.value, plugins).None? ==> r == Err(NoPluginForPage(found.value[0])))
      && (found.Ok? && ResolvedIds(found.value, plugins).Some?
            && FirstNodeFailure(plugins, ResolvedIds(found.value, plugins).value).Some? ==>
            r == Err(FirstNodeFailure(plugins, ResolvedIds(found.value, plugins).value).value))
      && (found.Ok? && ResolvedIds(found.value, plugins).Some?
            && FirstNodeFailure(plugins, ResolvedIds(found.value, plugins).value).None? ==>
            r == Ok(SearchDocument(mp, searchString, |found.value|, plugins, ResolvedIds(found.value, plugins).value)))
  {
    var found := SearchFiles(searchString, unquote, lopi, pages);
    if found.Err? {
      return Err(found.error);
    }
    var hits := found.value;
    var search := new ElementBuilder("search", [("term", searchString), ("count", NatToString(|hits|))]);
    var failure := InsertHitNodes(mp, search, hits, plugins);
    if failure.Some? {
      return Err(failure.value);
    }
    r := Ok(Element("marketplace", [], None, [search.Value()]));
  }

  /** The loop of the search result builder: for each hit, the plugin id of
      its page (kept from the previous hit when there is none), that
      plugin's node, inserted at index 1. */
  method InsertHitNodes(mp: MarketPlace, search: ElementBuilder, hits: seq<string>, plugins: seq<Plugin>)
    returns (failure: Option<Error>)
    requires search.children == []
    modifies search
    ensures ResolvedIds(hits, plugins).None? ==> failure == Some(NoPluginForPage(hits[0]))
    ensures ResolvedIds(hits, plugins).Some? ==> failure == FirstNodeFailure(plugins, ResolvedIds(hits, plugins).value)
    ensures ResolvedIds(hits, plugins).Some? && failure.None? ==>
              search.children == InsertOrder(NodesOf(mp, plugins, ResolvedIds(hits, plugins).value))
  {
    var pluginId: Option<string> := None;
    ghost var ids: seq<string> := [];
    failure := None;
    var i := 0;
    while i < |hits|
      invariant 0 <= i <= |hits|
      invariant ResolvedIds(hits[..i], plugins) == Some(ids)
      invariant |ids| == i
      invariant pluginId == if i == 0 then None else Some(ids[i - 1])
      invariant FirstNodeFailure(plugins, ids).None? && failure.None?
      invariant search.children == InsertOrder(NodesOf(mp, plugins, ids))
    {
      pluginId, failure := InsertHit(mp, search, hits, plugins, i, pluginId, ids);
      if failure.Some? {
        return;
      }
      ids := ids + [pluginId.value];
      i := i + 1;
    }
    assert hits[..i] == hits;
  }

  /** One turn of the loop over the hits: resolve hit `i`, then build and
      insert its plugin's node. A failure is the failure of the whole loop. */
  method InsertHit(mp: MarketPlace, search: ElementBuilder, hits: seq<string>, plugins: seq<Plugin>, i: nat,
                   pluginId: Option<string>, ghost ids: seq<string>)
    returns (next: Option<string>, failure: Option<Error>)
    requires i < |hits| && ResolvedIds(hits[..i], plugins) == Some(ids) && |ids| == i
    requires pluginId == if i == 0 then None else Some(ids[i - 1])
    requires FirstNodeFailure(plugins, ids).None?
    requires search.children == InsertOrder(NodesOf(mp, plugins, ids))
    modifies search
    ensures ResolvedIds(hits, plugins).None? ==> failure == Some(NoPluginForPage(hits[0]))
    ensures ResolvedIds(hits, plugins).Some? && failure.Some? ==>
              failure == FirstNodeFailure(plugins, ResolvedIds(hits, plugins).value)
    ensures failure.None? ==> next.Some? && ResolvedIds(hits[..i + 1], plugins) == Some(ids + [next.value])
    ensures failure.None? ==> FirstNodeFailure(plugins, ids + [next.value]).None?
    ensures failure.None? ==> search.children == InsertOrder(NodesOf(mp, plugins, ids + [next.value]))
  {
    next := ResolveHit(hits, plugins, i, pluginId, ids);
    if next.None? {
      return next, Some(NoPluginForPage(hits[i]));
    }
    ResolvedIdsPrefix(hits, plugins, i + 1);
    failure := InsertHitNode(mp, search, plugins, ids, next.value);
    if failure.Some? {
      FailureOfHits(hits, plugins, i, ids + [next.value]);
    }
  }

  /** The inner loop of the search result builder: the id of the last plugin
      whose page is hit `i`, or the id kept from the previous hit. */
  method ResolveHit(hits: seq<string>, plugins: seq<Plugin>, i: nat, pluginId: Option<string>, ghost ids: seq<string>)
    returns (next: Option<string>)
    requires i < |hits| && ResolvedIds(hits[..i], plugins) == Some(ids) && |ids| == i
    requires pluginId == if i == 0 then None else Some(ids[i - 1])
    ensures next.None? <==> i == 0 && ResolvedIds(hits, plugins).None?
    ensures next.Some? ==> ResolvedIds(hits[..i + 1], plugins) == Some(ids + [next.value])
    ensures next.Some? ==> LastWith(plugins, ByPlugId, next.value).Some?
  {
    ResolvedIdsSome(hits, plugins);
    var owner := FindLast(plugins, ByPageId, hits[i]);
    next := pluginId;
    if owner.Some? {
      next := Some(owner.value.plugId);
    }
    if next.Some? {
      ResolvedStep(hits, plugins, i, ids);
    }
  }

  /** A node that fails for the first `i + 1` hits is the first failure of
      all the hits. */
  lemma FailureOfHits(hits: seq<string>, plugins: seq<Plugin>, i: nat, ids: seq<string>)
    requires i < |hits| && ResolvedIds(hits[..i + 1], plugins) == Some(ids)
    requires FirstNodeFailure(plugins, ids).Some?
    ensures ResolvedIds(hits, plugins).Some?
    ensures FirstNodeFailure(plugins, ResolvedIds(hits, plugins).value) == FirstNodeFailure(plugins, ids)
  {
    ResolvedIdsPrefix(hits, plugins, i + 1);
    FirstNodeFailurePrefix(plugins, ResolvedIds(hits, plugins).value, i + 1);
  }

  /** One pass of the loop over the hits: the node of plugin `id` goes in at
      index 1, after the nodes of the hits before it, unless building it
      fails. */
  method InsertHitNode(mp: MarketPlace, search: ElementBuilder, plugins: seq<Plugin>, ghost ids: seq<string>, id: string)
    returns (failure: Option<Error>)
    requires forall k :: 0 <= k < |ids| ==> LastWith(plugins, ByPlugId, ids[k]).Some?
    requires FirstNodeFailure(plugins, ids).None?
    requires LastWith(plugins, ByPlugId, id).Some?
    requires search.children == InsertOrder(NodesOf(mp, plugins, ids))
    modifies search
    ensures failure == FirstNodeFailure(plugins, ids + [id])
    ensures failure.None? ==> search.children == InsertOrder(NodesOf(mp, plugins, ids + [id]))
  {
    assert (ids + [id])[..|ids|] == ids;
    var node := BuildNode(mp, id, plugins);
    if node.Err? {
      return Some(node.error);
    }
    failure := None;
    var n := node.value;
    NodesOfAppend(mp, plugins, ids, id);
    InsertOrderStep(NodesOf(mp, plugins, ids), n);
    search.Insert(1, n);
  }

  /** One turn of the result loop: the id used for hit `i` extends the
      resolved ids. */
  lemma ResolvedStep(hits: seq<string>, plugins: seq<Plugin>, i: nat, ids: seq<string>)
    requires i < |hits| && ResolvedIds(hits[..i], plugins) == Some(ids)
    requires LastWith(plugins, ByPageId, hits[i]).Some? || i > 0
    ensures |ids| == i
    ensures var id := if LastWith(plugins, ByPageId, hits[i]).Some? then LastWith(plugins, ByPageId, hits[i]).value.plugId
                      else ids[i - 1];
            ResolvedIds(hits[..i + 1], plugins) == Some(ids + [id]) && LastWith(plugins, ByPlugId, id).Some?
  {
    assert hits[..i + 1][..i] == hits[..i];
    var r := ResolvedIds(hits[..i + 1], plugins).value;
    assert r[i] == r[|r| - 1];
  }

  /** Resolving a prefix of the hits resolves its part of all the hits. */
  lemma {:induction false} ResolvedIdsPrefix(hits: seq<string>, plugins: seq<Plugin>, n: nat)
    requires 0 < n <= |hits| && ResolvedIds(hits[..n], plugins).Some?
    ensures ResolvedIds(hits, plugins).Some?
    ensures ResolvedIds(hits, plugins).value[..n] == ResolvedIds(hits[..n], plugins).value
    decreases |hits|
  {
    ResolvedIdsSome(hits[..n], plugins);
    ResolvedIdsSome(hits, plugins);
    assert hits[..n][0] == hits[0];
    if n == |hits| {
      assert hits[..n] == hits;
    } else {
      var init := hits[..|hits| - 1];
      assert init[..n] == hits[..n];
      ResolvedIdsPrefix(init, plugins, n);
      var before := ResolvedIds(init, plugins).value;
      assert ResolvedIds(hits, plugins).value[..|before|] == before;
    }
  }

  /** With unique plugin ids, a hit that is some plugin's page is shown as
      that plugin's own node. */
  lemma SearchNodeOfHit(mp: MarketPlace, hits: seq<string>, plugins: seq<Plugin>, k: nat)
    requires UniquePlugIds(plugins) && ResolvedIds(hits, plugins).Some? && k < |hits|
    requires LastWith(plugins, ByPageId, hits[k]).Some?
    ensures NodesOf(mp, plugins, ResolvedIds(hits, plugins).value)[k]
            == NodeElement(mp, LastWith(plugins, ByPageId, hits[k]).value)
  {
    var p := LastWith(plugins, ByPageId, hits[k]).value;
    ResolvedIdsAt(hits, plugins, k);
    LastWithIsLast(plugins, ByPageId, hits[k]);
    var j :| 0 <= j < |plugins| && plugins[j] == p;
    LastWithUniqueId(plugins, j);
  }
}
