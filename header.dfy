/**
 * The header component of `utils.js`: `renderHeader` with its own local tab
 * table, which it maps to one anchor per tab exactly like the shared tab
 * header does, but with its own rules for links, margins and the settings tab.
 */
module Header {
  import opened JsValues
  import opened TabStrip
  import Tabs

  /** One entry of the table local to `renderHeader`; only the settings entry has no icon. */
  datatype HeaderTab = HeaderTab(id: string, caption: string, icon: Option<string>, small: bool)

  /** The table `renderHeader` declares, in display order. */
  const HEADER_TABS: seq<HeaderTab> := [
    HeaderTab("invoices", "Invoices",
      Some("<path stroke-linecap=\"round\" stroke-linejoin=\"round\" stroke-width=\"2\" d=\"M9 12h6m-6 4h6m2 5H7a2 2 0 01-2-2V5a2 2 0 012-2h5.586a1 1 0 01.707.293l5.414 5.414a1 1 0 01.293.707V19a2 2 0 01-2 2z\"></path>"),
      false),
    HeaderTab("cores-warranty", "Core & Warranty",
      Some("<path stroke-linecap=\"round\" stroke-linejoin=\"round\" stroke-width=\"2\" d=\"M4 4v5h.582m15.356 2A8.001 8.001 0 004.582 9m0 0H9m11 11v-5h-.581m0 0a8.003 8.003 0 01-15.357-2m15.357 2H15\"></path>"),
      false),
    HeaderTab("emails", "Emails",
      Some("<path stroke-linecap=\"round\" stroke-linejoin=\"round\" stroke-width=\"2\" d=\"M3 8l7.89 5.26a2 2 0 002.22 0L21 8M5 19h14a2 2 0 002-2V7a2 2 0 00-2-2H5a2 2 0 00-2 2v10a2 2 0 002 2z\"></path>"),
      false),
    HeaderTab("statements", "Statements",
      Some("<path stroke-linecap=\"round\" stroke-linejoin=\"round\" stroke-width=\"2\" d=\"M9 17v-2m3 2v-4m3 4v-6m2 10H7a2 2 0 01-2-2V5a2 2 0 012-2h5.586a1 1 0 01.707.293l5.414 5.414a1 1 0 01.293.707V19a2 2 0 01-2 2z\"></path>"),
      false),
    HeaderTab("bookkeeper", "Bookkeeper",
      Some("<path stroke-linecap=\"round\" stroke-linejoin=\"round\" stroke-width=\"2\" d=\"M17 20h5v-2a3 3 0 00-5.356-1.857M17 20H7m10 0v-2c0-.656-.126-1.283-.356-1.857M7 20H2v-2a3 3 0 015.356-1.857M7 20v-2c0-.656.126-1.283.356-1.857m0 0a5.002 5.002 0 019.288 0M15 7a3 3 0 11-6 0 3 3 0 016 0z\"></path>"),
      false),
    HeaderTab("chat", "Ask Protractor",
      Some("<path stroke-linecap=\"round\" stroke-linejoin=\"round\" stroke-width=\"2\" d=\"M8 12h.01M12 12h.01M16 12h.01M21 12c0 4.418-4.03 8-9 8a9.863 9.863 0 01-4.255-.949L3 20l1.395-3.72C3.512 15.042 3 13.574 3 12c0-4.418 4.03-8 9-8s9 3.582 9 8z\"></path>"),
      false),
    HeaderTab("search", "Search",
      Some("<path stroke-linecap=\"round\" stroke-linejoin=\"round\" stroke-width=\"2\" d=\"M21 21l-6-6m2-5a7 7 0 11-14 0 7 7 0 0114 0z\"></path>"),
      false),
    HeaderTab("settings", "⚙️",
      None,
      true)
  ]

  function HeaderTabId(tab: HeaderTab): string {
    tab.id
  }

  /**
   * The table is well formed: distinct ids, exactly one small (settings)
   * entry, the last, and every other entry has an icon.
   */
  lemma HeaderTableWellFormed()
    ensures Ids(HEADER_TABS, HeaderTabId) == ["invoices", "cores-warranty", "emails", "statements", "bookkeeper", "chat", "search", "settings"]
    ensures Distinct(Ids(HEADER_TABS, HeaderTabId))
    ensures |HEADER_TABS| > 0 && HEADER_TABS[|HEADER_TABS| - 1].small
    ensures forall i :: 0 <= i < |HEADER_TABS| - 1 ==> !HEADER_TABS[i].small && HEADER_TABS[i].icon.Some?
  {
  }

  /**
   * The link target: `'index.html'` for the id `index`, `id + '.html'`
   * otherwise. The special case gives the same text as the general rule.
   */
  function HrefFor(id: string): (r: string)
    ensures r == id + ".html"
  {
    if id == "index" then "index.html" else id + ".html"
  }

  /** What `${tab.icon}` interpolates: the icon's markup, or `null` when there is none. */
  function IconText(icon: Option<string>): string {
    match icon
    case Some(markup) => markup
    case None => "null"
  }

  /**
   * The decisions `renderHeader` makes for one tab. The margin rule compares
   * ids with the first tab's id rather than positions.
   */
  function HeaderAnchor(tab: HeaderTab, firstId: string, activeTab: string): (a: Anchor)
    ensures a.href == tab.id + ".html"
    ensures a.active <==> tab.id == activeTab
    ensures a.iconButton <==> tab.small
    ensures a.hasMargin <==> (tab.small || tab.id != firstId)
    ensures ShowsLabel(a)
    ensures ShowsSvg(a) <==> !tab.small
    ensures tab.small ==> a.content == [Label(tab.caption)]
    ensures !tab.small ==> a.content == [Svg(IconText(tab.icon)), Label(tab.caption)]
  {
    var isActive := tab.id == activeTab;
    var href := HrefFor(tab.id);
    var a :=
      if tab.small then Anchor(href, isActive, true, true, [Label(tab.caption)])
      else Anchor(href, isActive, tab.id != firstId, false, [Svg(IconText(tab.icon)), Label(tab.caption)]);
    assert a.content[|a.content| - 1].Label?;
    assert !tab.small ==> a.content[0].Svg?;
    a
  }

  /** `tabs.map(tab => ...)`: one anchor per tab, in table order. */
  function RenderHeaderTabs(tabs: seq<HeaderTab>, activeTab: string): (r: seq<Anchor>)
    ensures |r| == |tabs|
    ensures forall i :: 0 <= i < |tabs| ==> r[i] == HeaderAnchor(tabs[i], tabs[0].id, activeTab)
  {
    if tabs == [] then []
    else seq(|tabs|, i requires 0 <= i < |tabs| => HeaderAnchor(tabs[i], tabs[0].id, activeTab))
  }

  /**
   * With distinct ids, exactly one anchor is highlighted when the active id
   * names a tab and none otherwise.
   */
  lemma HeaderHighlightsTheActiveTab(tabs: seq<HeaderTab>, activeTab: string)
    requires Distinct(Ids(tabs, HeaderTabId))
    ensures CountActive(RenderHeaderTabs(tabs, activeTab)) == if activeTab in Ids(tabs, HeaderTabId) then 1 else 0
    ensures forall i, j :: 0 <= i < |tabs| && 0 <= j < |tabs| && RenderHeaderTabs(tabs, activeTab)[i].active && RenderHeaderTabs(tabs, activeTab)[j].active ==> i == j
  {
    var r := RenderHeaderTabs(tabs, activeTab);
    CountActiveByIds(r, Ids(tabs, HeaderTabId), activeTab);
    AtMostOneActive(r, Ids(tabs, HeaderTabId), activeTab);
  }

  /**
   * With distinct ids, the id comparison amounts to a position test: a plain
   * tab carries the margin exactly when it is not the first.
   */
  lemma MarginUnlessFirst(tabs: seq<HeaderTab>, activeTab: string)
    requires Distinct(Ids(tabs, HeaderTabId))
    ensures forall i :: 0 <= i < |tabs| && !tabs[i].small ==> (RenderHeaderTabs(tabs, activeTab)[i].hasMargin <==> i > 0)
  {
    var r := RenderHeaderTabs(tabs, activeTab);
    forall i | 0 <= i < |tabs| && !tabs[i].small
      ensures r[i].hasMargin <==> i > 0
    {
      if i > 0 {
        assert Ids(tabs, HeaderTabId)[0] != Ids(tabs, HeaderTabId)[i];
      }
    }
  }

  /** Without distinct ids the rule differs: a later plain tab that repeats the first id gets no margin. */
  lemma RepeatedFirstIdDropsMargin(tabs: seq<HeaderTab>, activeTab: string, i: nat)
    requires 0 < i < |tabs| && !tabs[i].small && tabs[i].id == tabs[0].id
    ensures !RenderHeaderTabs(tabs, activeTab)[i].hasMargin
  {
  }

  /** On the component's own table: margins on all but the first, the last is the label-only settings tab. */
  lemma HeaderLayout(activeTab: string)
    ensures var r := RenderHeaderTabs(HEADER_TABS, activeTab);
      && (forall i :: 0 <= i < |r| ==> (r[i].hasMargin <==> i > 0))
      && (forall i :: 0 <= i < |r| ==> (ShowsSvg(r[i]) <==> i < |r| - 1))
      && r[|r| - 1].content == [Label("⚙️")]
  {
    HeaderTableWellFormed();
    MarginUnlessFirst(HEADER_TABS, activeTab);
  }

  const ActiveClass := "bg-white text-slate-800 border-t border-l border-r border-slate-300"
  const InactiveClass := "bg-slate-100 text-slate-600 hover:bg-slate-50 border border-transparent"

  /** A run of `n` spaces. */
  function Indent(n: nat): string {
    seq(n, _ => ' ')
  }

  function HeaderClassAttr(a: Anchor): string {
    var base := if a.active then ActiveClass else InactiveClass;
    if a.iconButton then
      " class=\"flex items-center justify-center w-10 h-10 rounded-t-lg transition-all ml-1 " + base + "\" title=\"Settings\">"
    else
      " class=\"flex items-center gap-2 px-5 py-2.5 text-sm font-medium rounded-t-lg transition-all "
        + (if a.hasMargin then "ml-1" else "") + " whitespace-nowrap " + base + "\">"
  }

  /** One piece of content on its own line, `depth` columns in. */
  function HeaderContentHtml(c: Content, depth: nat): string {
    match c
    case Svg(d) => "\n" + Indent(depth) + "<svg class=\"w-4 h-4\" fill=\"none\" stroke=\"currentColor\" viewBox=\"0 0 24 24\">" + d + "</svg>"
    case Label(text) => "\n" + Indent(depth) + text
  }

  function HeaderContentsHtml(content: seq<Content>, depth: nat): string {
    Join(seq(|content|, k requires 0 <= k < |content| => HeaderContentHtml(content[k], depth)))
  }

  /** How far in the anchor's template starts: the settings template sits two columns deeper. */
  function Depth(a: Anchor): nat {
    if a.iconButton then 18 else 16
  }

  /** The markup of one anchor, whitespace included. */
  function HeaderAnchorHtml(a: Anchor): (r: string)
    ensures "\n" + Indent(Depth(a)) + "<a href=\"" + a.href + "\"" <= r
  {
    var open := "\n" + Indent(Depth(a)) + "<a href=\"" + a.href + "\"";
    var rest := HeaderClassAttr(a) + HeaderContentsHtml(a.content, Depth(a) + 2)
      + "\n" + Indent(Depth(a)) + "</a>\n" + Indent(Depth(a) - 2);
    assert (open + rest)[..|open|] == open;
    open + rest
  }

  function HeaderFragments(anchors: seq<Anchor>): (r: seq<string>)
    ensures |r| == |anchors| && forall i :: 0 <= i < |anchors| ==> r[i] == HeaderAnchorHtml(anchors[i])
  {
    seq(|anchors|, i requires 0 <= i < |anchors| => HeaderAnchorHtml(anchors[i]))
  }

  const PageTop :=
    "\n"
    + "    <header class=\"bg-blue-900 text-white shadow-lg\">\n"
    + "      <div class=\"max-w-7xl mx-auto px-4 py-3\">\n"
    + "        <div class=\"flex items-center gap-4\">\n"
    + "          <div class=\"bg-yellow-400 text-blue-900 font-bold px-3 py-1 rounded text-lg\">NAPA</div>\n"
    + "          <div>\n"
    + "            <h1 class=\"text-xl font-semibold\">Sylvan Lake AutoPro</h1>\n"
    + "            <p class=\"text-blue-200 text-sm\">Business Dashboard</p>\n"
    + "          </div>\n"
    + "          <div class=\"ml-auto\">\n"
    + "            <button onclick=\"location.reload()\" class=\"px-3 py-1.5 bg-blue-800 hover:bg-blue-700 rounded-lg text-sm transition-colors\">\n"
    + "              🔄 Refresh\n"
    + "            </button>\n"
    + "          </div>\n"
    + "        </div>\n"
    + "      </div>\n"
    + "\n"
    + "      <div class=\"bg-blue-800\">\n"
    + "        <div class=\"max-w-7xl mx-auto px-4\">\n"
    + "          <div class=\"flex items-end pt-2 overflow-x-auto\">\n"
    + "            "
  const PageBottom :=
    "\n"
    + "          </div>\n"
    + "        </div>\n"
    + "      </div>\n"
    + "    </header>\n"
    + "  "

  /**
   * `renderHeader(activeTab)`: the fixed chrome, whose right-hand slot is
   * always the refresh button, around the joined anchors.
   */
  function RenderHeader(activeTab: string): (r: string)
    ensures PageTop <= r
    ensures |r| == |PageTop| + |Join(HeaderFragments(RenderHeaderTabs(HEADER_TABS, activeTab)))| + |PageBottom|
    ensures r[|PageTop|..|r| - |PageBottom|] == Join(HeaderFragments(RenderHeaderTabs(HEADER_TABS, activeTab)))
    ensures r[|r| - |PageBottom|..] == PageBottom
  {
    var tabs := Join(HeaderFragments(RenderHeaderTabs(HEADER_TABS, activeTab)));
    Sandwich(PageTop, tabs, PageBottom);
    Bracketed(PageTop, tabs, PageBottom);
    PageTop + tabs + PageBottom
  }

  /**
   * The two tables drift apart in their ids: the local table's ids are the
   * shared ids with `chat` moved from third place to sixth and the core and
   * warranty id spelled with a hyphen instead of an underscore.
   */
  lemma TablesDrift()
    ensures var shared := Ids(Tabs.TABS, Tabs.TabId);
      var local := Ids(HEADER_TABS, HeaderTabId);
      && |shared| == |local| == 8
      && local[0] == shared[0] && local[5] == shared[2]
      && local[2] == shared[3] && local[3] == shared[4] && local[4] == shared[5]
      && local[6] == shared[6] && local[7] == shared[7]
      && shared[1] == "cores_warranty" && local[1] == "cores-warranty"
  {
    Tabs.TableWellFormed();
    HeaderTableWellFormed();
  }

  /**
   * Under the same reordering the first seven captions agree; the icons do
   * not, since the local table holds whole `<path>` elements where the
   * shared one holds only their path data.
   */
  lemma CaptionsAgree()
    ensures var shared := Tabs.TABS;
      var local := HEADER_TABS;
      && local[0].caption == shared[0].caption && local[1].caption == shared[1].caption
      && local[5].caption == shared[2].caption && local[2].caption == shared[3].caption
      && local[3].caption == shared[4].caption && local[4].caption == shared[5].caption
      && local[6].caption == shared[6].caption
  {
  }

  /**
   * The settings entries differ: the shared one has an empty caption and a
   * gear icon drawn as an svg, the local one has the caption `⚙️`, no icon,
   * and is drawn as that text alone.
   */
  lemma SettingsEntriesDiffer(activeTab: string)
    ensures Tabs.TABS[7].isSettings && Tabs.TABS[7].caption == ""
    ensures HEADER_TABS[7].small && HEADER_TABS[7].caption == "⚙️" && HEADER_TABS[7].icon.None?
    ensures Tabs.TabAnchor(Tabs.TABS[7], 7, activeTab).content == [Svg(Tabs.TABS[7].icon)]
    ensures HeaderAnchor(HEADER_TABS[7], HEADER_TABS[0].id, activeTab).content == [Label("⚙️")]
  {
  }

  /**
   * The core and warranty tab has the id `cores-warranty` here and
   * `cores_warranty` in the shared table, so the id that highlights it in
   * one renderer highlights nothing in the other
   * (`Tabs.CoreWarrantyHighlight` is the other half).
   */
  lemma CoreWarrantyHighlight()
    ensures CountActive(RenderHeaderTabs(HEADER_TABS, "cores-warranty")) == 1
    ensures CountActive(RenderHeaderTabs(HEADER_TABS, "cores_warranty")) == 0
  {
    HeaderTableWellFormed();
    var ids := Ids(HEADER_TABS, HeaderTabId);
    assert ids[1] == "cores-warranty";
    assert "cores_warranty" !in ids;
    HeaderHighlightsTheActiveTab(HEADER_TABS, "cores_warranty");
    HeaderHighlightsTheActiveTab(HEADER_TABS, "cores-warranty");
  }
}
