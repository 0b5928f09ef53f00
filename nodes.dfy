/** `build_mp_node_apip` and `build_mp_content_apip`: the `node` element that
    describes one plugin to the Eclipse Marketplace client. */
module Nodes {
  import opened Wrappers
  import opened Pairs
  import opened Strings
  import opened Xml
  import opened Catalog

  /** Where the wiki keeps the attachments of a plugin's page. */
  const AttachmentBase := "https://dev2.dariah.eu/wiki/download/attachments/"

  /** A file attached to the plugin's wiki page. */
  function Attachment(p: Plugin, file: string): string
  {
    AttachmentBase + p.pageId + "/" + file
  }

  /** The logo is used verbatim when it is already a URL, otherwise it is a
      file attached to the plugin's wiki page. */
  function ImageUrl(p: Plugin): (u: string)
    ensures StartsWith(p.logo, "http") ==> u == p.logo
    ensures !StartsWith(p.logo, "http") ==> u == AttachmentBase + p.pageId + "/" + p.logo
  {
    if StartsWith(p.logo, "http") then p.logo else Attachment(p, p.logo)
  }

  /** The tag of child `i` of the fourteen every node has, in the order the
      client receives them; a screenshot (when there is one) and the update
      URL follow. */
  function FixedTag(i: nat): string
    requires i < 14
  {
    if i == 0 then "body"
    else if i == 1 then "categories"
    else if i == 2 then "changed"
    else if i == 3 then "companyname"
    else if i == 4 then "created"
    else if i == 5 then "eclipseversion"
    else if i == 6 then "favorited"
    else if i == 7 then "foundationmember"
    else if i == 8 then "homepageurl"
    else if i == 9 then "image"
    else if i == 10 then "ius"
    else if i == 11 then "license"
    else if i == 12 then "owner"
    else "resource"
  }

  /** The attributes of a node: id, name (the plugin's title) and the
      content URL. */
  function NodeAttrs(mp: MarketPlace, p: Plugin): seq<(string, string)>
  {
    [("id", p.plugId), ("name", p.humanTitle), ("url", mp.url + "/content/" + p.plugId)]
  }

  lemma NodeAttrsLookup(mp: MarketPlace, p: Plugin)
    ensures Lookup(NodeAttrs(mp, p), "id") == Some(p.plugId)
    ensures Lookup(NodeAttrs(mp, p), "name") == Some(p.humanTitle)
    ensures Lookup(NodeAttrs(mp, p), "url") == Some(mp.url + "/content/" + p.plugId)
  {
    var a := NodeAttrs(mp, p);
    LookupAt(a, 0); LookupAt(a, 1); LookupAt(a, 2);
  }

  /** The inner `categories` element: the plugin's category id, but the
      plugin's title as its name. */
  function CategoryRef(mp: MarketPlace, p: Plugin): (e: Element)
    ensures e.tag == "categories" && e.children == []
  {
    Empty("categories", [("id", p.category), ("name", p.humanTitle),
                         ("url", mp.url + "/taxonomy/term/" + mp.mpid + "," + p.category)])
  }

  lemma CategoryRefAttrs(mp: MarketPlace, p: Plugin)
    ensures Attr(CategoryRef(mp, p), "id") == Some(p.category)
    ensures Attr(CategoryRef(mp, p), "name") == Some(p.humanTitle)
    ensures Attr(CategoryRef(mp, p), "url") == Some(mp.url + "/taxonomy/term/" + mp.mpid + "," + p.category)
  {
    var a := CategoryRef(mp, p).attrs;
    LookupAt(a, 0); LookupAt(a, 1); LookupAt(a, 2);
  }

  /** Child `i` of the fourteen every node has, in document order. */
  function FixedChild(mp: MarketPlace, p: Plugin, i: nat): (e: Element)
    requires i < 14
    ensures e.tag == FixedTag(i)
    // body: the description as a CDATA section
    ensures i == 0 ==> e.text == Some(CData(p.description))
    // categories/categories: category id of the plugin, title of the plugin
    ensures i == 1 ==> e.children == [CategoryRef(mp, p)]
    // image: the logo, see ImageUrl
    ensures i == 9 ==> e.text == Some(CData(ImageUrl(p)))
    // ius/iu: the installable unit
    ensures i == 10 ==> e.children == [Leaf("iu", Plain(p.installableUnit))]
  {
    var tag := FixedTag(i);
    if i == 0 then Leaf(tag, CData(p.description))
    else if i == 1 then Element(tag, [], None, [CategoryRef(mp, p)])
    else if i == 2 then Leaf(tag, Plain("0"))
    else if i == 3 then Leaf(tag, CData(p.company))
    else if i == 4 then Leaf(tag, Plain("0"))
    else if i == 5 then Leaf(tag, CData("0"))
    else if i == 6 then Leaf(tag, Plain("0"))
    else if i == 7 then Leaf(tag, Plain("1"))
    else if i == 8 then Leaf(tag, CData(p.companyUrl))
    else if i == 9 then Leaf(tag, CData(ImageUrl(p)))
    else if i == 10 then Element(tag, [], None, [Leaf("iu", Plain(p.installableUnit))])
    else if i == 11 then Leaf(tag, Plain(p.license))
    else if i == 12 then Leaf(tag, CData(p.owner))
    else Empty(tag, [])
  }

  /** The node of plugin `p`: its id, title and content URL as attributes,
      the fourteen fixed children, a `screenshot` exactly when the plugin
      has one, and the update site last. */
  function NodeElement(mp: MarketPlace, p: Plugin): (r: Element)
    ensures r.tag == "node" && r.attrs == NodeAttrs(mp, p)
    ensures |r.children| == if p.screenshot != "" then 16 else 15
    ensures forall i :: 0 <= i < 14 ==> r.children[i] == FixedChild(mp, p, i)
    // screenshot: always an attachment of the wiki page, never checked for "http"
    ensures p.screenshot != "" ==> r.children[14] == Leaf("screenshot", CData(AttachmentBase + p.pageId + "/" + p.screenshot))
    ensures r.children[|r.children| - 1] == Leaf("updateurl", CData(p.updateUrl))
  {
    var fixed := seq(14, i requires 0 <= i < 14 => FixedChild(mp, p, i));
    var shot := if p.screenshot != "" then [Leaf("screenshot", CData(Attachment(p, p.screenshot)))] else [];
    Element("node", NodeAttrs(mp, p), None, fixed + shot + [Leaf("updateurl", CData(p.updateUrl))])
  }

  /** A node is identified by the plugin's id, titled with its title and
      points at its content page. */
  lemma NodeElementAttrs(mp: MarketPlace, p: Plugin)
    ensures Attr(NodeElement(mp, p), "id") == Some(p.plugId)
    ensures Attr(NodeElement(mp, p), "name") == Some(p.humanTitle)
    ensures Attr(NodeElement(mp, p), "url") == Some(mp.url + "/content/" + p.plugId)
  {
    NodeAttrsLookup(mp, p);
  }

  /** No fixed child is called `screenshot`. */
  lemma FixedTagNotScreenshot(i: nat)
    requires i < 14
    ensures FixedTag(i) != "screenshot"
  {
    assert |FixedTag(i)| != 10 || FixedTag(i)[0] != 's';
  }

  /** A node has a `screenshot` child exactly when the plugin names a screenshot. */
  lemma ScreenshotIffGiven(mp: MarketPlace, p: Plugin)
    ensures (exists k :: 0 <= k < |NodeElement(mp, p).children| && NodeElement(mp, p).children[k].tag == "screenshot")
            <==> p.screenshot != ""
  {
    var cs := NodeElement(mp, p).children;
    if p.screenshot != "" {
      assert cs[14].tag == "screenshot";
    } else {
      forall k | 0 <= k < |cs| ensures cs[k].tag != "screenshot" {
        if k < 14 {
          FixedTagNotScreenshot(k);
        } else {
          assert cs[k].tag == "updateurl";
          assert |"updateurl"| != 10;
        }
      }
    }
  }

  /** `etree.CDATA` refuses a text that holds the end marker of a CDATA
      section. */
  const CDataEnd := "]]>"

  /** The texts the node builder wraps with `etree.CDATA`, in the order it
      wraps them: body, company name, Eclipse version, home page, image,
      owner, the screenshot when there is one, and the update URL. */
  function CDataTexts(p: Plugin): seq<string>
  {
    [p.description, p.company, "0", p.companyUrl, ImageUrl(p), p.owner]
    + (if p.screenshot != "" then [Attachment(p, p.screenshot)] else [])
    + [p.updateUrl]
  }

  /** The first of `texts` that `etree.CDATA` refuses. */
  function FirstBadCData(texts: seq<string>): Option<string>
  {
    if texts == [] then None
    else if Contains(texts[0], CDataEnd) then Some(texts[0])
    else FirstBadCData(texts[1..])
  }

  /** No text is refused exactly when none holds "]]>"; a refused text is
      the first one that holds it. */
  lemma {:induction false} FirstBadCDataIsFirst(texts: seq<string>)
    ensures FirstBadCData(texts).None? <==> forall k :: 0 <= k < |texts| ==> !Contains(texts[k], CDataEnd)
    ensures FirstBadCData(texts).Some? ==>
              exists k :: 0 <= k < |texts| && texts[k] == FirstBadCData(texts).value && Contains(texts[k], CDataEnd)
                          && forall j :: 0 <= j < k ==> !Contains(texts[j], CDataEnd)
  {
    if texts != [] && !Contains(texts[0], CDataEnd) {
      var rest := texts[1..];
      FirstBadCDataIsFirst(rest);
      assert forall k :: 0 < k < |texts| ==> texts[k] == rest[k - 1];
      if FirstBadCData(rest).Some? {
        var k :| 0 <= k < |rest| && rest[k] == FirstBadCData(rest).value && Contains(rest[k], CDataEnd)
                 && forall j :: 0 <= j < k ==> !Contains(rest[j], CDataEnd);
        assert texts[k + 1] == rest[k];
      }
    }
  }

  /** Every top-level child of a node whose text is a CDATA section holds
      one of `CDataTexts`: those are exactly the texts the builder checks. */
  lemma NodeCDataChecked(mp: MarketPlace, p: Plugin, k: nat)
    requires k < |NodeElement(mp, p).children|
    requires NodeElement(mp, p).children[k].text.Some? && NodeElement(mp, p).children[k].text.value.CData?
    ensures NodeElement(mp, p).children[k].text.value.s in CDataTexts(p)
  {
    var cs := NodeElement(mp, p).children;
    var ts := CDataTexts(p);
    if k < 14 {
      assert cs[k] == FixedChild(mp, p, k);
      if k == 0 { assert ts[0] == p.description; }
      else if k == 3 { assert ts[1] == p.company; }
      else if k == 5 { assert ts[2] == "0"; }
      else if k == 8 { assert ts[3] == p.companyUrl; }
      else if k == 9 { assert ts[4] == ImageUrl(p); }
      else if k == 12 { assert ts[5] == p.owner; }
    } else if k == |cs| - 1 {
      assert ts[|ts| - 1] == p.updateUrl;
    } else {
      assert ts[6] == Attachment(p, p.screenshot);
    }
  }

  /** Why the node builder raises, if it does: no plugin has the id (the
      loop variable stays unbound), or a text it wraps as CDATA holds "]]>". */
  function NodeFailure(plugins: seq<Plugin>, plugId: string): Option<Error>
  {
    match LastWith(plugins, ByPlugId, plugId)
    case None => Some(PluginNotFound(plugId))
    case Some(p) =>
      match FirstBadCData(CDataTexts(p))
      case Some(t) => Some(BadCData(t))
      case None => None
  }

  /** The node of plugin `plugId` is built exactly when some plugin has that
      id and none of the last such plugin's CDATA texts holds "]]>"; a
      refused text holds it. */
  lemma NodeFailureIff(plugins: seq<Plugin>, plugId: string)
    ensures NodeFailure(plugins, plugId).None? <==>
              LastWith(plugins, ByPlugId, plugId).Some?
              && forall k :: 0 <= k < |CDataTexts(LastWith(plugins, ByPlugId, plugId).value)| ==>
                               !Contains(CDataTexts(LastWith(plugins, ByPlugId, plugId).value)[k], CDataEnd)
    ensures NodeFailure(plugins, plugId) == Some(PluginNotFound(plugId)) <==>
              forall j :: 0 <= j < |plugins| ==> plugins[j].plugId != plugId
    ensures NodeFailure(plugins, plugId).Some? && NodeFailure(plugins, plugId).value.BadCData? ==>
              Contains(NodeFailure(plugins, plugId).value.text, CDataEnd)
  {
    LastWithNone(plugins, ByPlugId, plugId);
    if LastWith(plugins, ByPlugId, plugId).Some? {
      FirstBadCDataIsFirst(CDataTexts(LastWith(plugins, ByPlugId, plugId).value));
    }
  }

  /** The node builder: finds the plugin with id `plugId` and builds its
      node; it raises as `NodeFailure` says. */
  method BuildNode(mp: MarketPlace, plugId: string, plugins: seq<Plugin>) returns (r: Result<Element, Error>)
    ensures r.Err? <==> NodeFailure(plugins, plugId).Some?
    ensures r.Err? ==> r.error == NodeFailure(plugins, plugId).value
    ensures r == Err(PluginNotFound(plugId)) <==> forall j :: 0 <= j < |plugins| ==> plugins[j].plugId != plugId
    ensures r.Ok? ==> LastWith(plugins, ByPlugId, plugId).Some?
    ensures r.Ok? ==> Attr(r.value, "id") == Some(plugId)
    ensures r.Ok? ==> r.value == NodeElement(mp, LastWith(plugins, ByPlugId, plugId).value)
  {
    NodeFailureIff(plugins, plugId);
    var current := FindLast(plugins, ByPlugId, plugId);
    match current
    case None =>
      r := Err(PluginNotFound(plugId));
    case Some(p) =>
      var bad := FirstBadCData(CDataTexts(p));
      if bad.Some? {
        r := Err(BadCData(bad.value));
      } else {
        NodeElementAttrs(mp, p);
        r := Ok(NodeElement(mp, p));
      }
  }

  /** The content wrapper: a `marketplace` element whose only child is the
      plugin's node (inserted at index 1 into an empty element, i.e. appended). */
  method BuildContent(mp: MarketPlace, plugId: string, plugins: seq<Plugin>) returns (r: Result<Element, Error>)
    ensures r.Err? <==> NodeFailure(plugins, plugId).Some?
    ensures r.Err? ==> r.error == NodeFailure(plugins, plugId).value
    ensures r.Ok? ==> LastWith(plugins, ByPlugId, plugId).Some?
    ensures r.Ok? ==> r.value == Element("marketplace", [], None, [NodeElement(mp, LastWith(plugins, ByPlugId, plugId).value)])
  {
    var mplace := new ElementBuilder("marketplace", []);
    var node := BuildNode(mp, plugId, plugins);
    match node
    case Err(e) =>
      r := Err(e);
    case Ok(n) =>
      mplace.Insert(1, n);
      r := Ok(mplace.Value());
  }
}
