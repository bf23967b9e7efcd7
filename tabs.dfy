/**
 * The tab header of the staff dashboard pages that use the shared tab table:
 * the table itself and `renderTabsHeader`, which maps it to one anchor per
 * tab and wraps the joined anchors in the fixed page chrome.
 */
module Tabs {
  import opened JsValues
  import opened TabStrip

  /** One entry of the shared tab table. */
  datatype Tab = Tab(id: string, caption: string, href: string, icon: string, isSettings: bool)

  /** The shared tab table, in display order. */
  const TABS: seq<Tab> := [
    Tab("invoices", "Invoices", "invoices.html",
      "M9 12h6m-6 4h6m2 5H7a2 2 0 01-2-2V5a2 2 0 012-2h5.586a1 1 0 01.707.293l5.414 5.414a1 1 0 01.293.707V19a2 2 0 01-2 2z",
      false),
    Tab("cores_warranty", "Core & Warranty", "cores-warranty.html",
      "M4 4v5h.582m15.356 2A8.001 8.001 0 004.582 9m0 0H9m11 11v-5h-.581m0 0a8.003 8.003 0 01-15.357-2m15.357 2H15",
      false),
    Tab("chat", "Ask Protractor", "chat.html",
      "M8 12h.01M12 12h.01M16 12h.01M21 12c0 4.418-4.03 8-9 8a9.863 9.863 0 01-4.255-.949L3 20l1.395-3.72C3.512 15.042 3 13.574 3 12c0-4.418 4.03-8 9-8s9 3.582 9 8z",
      false),
    Tab("emails", "Emails", "emails.html",
      "M3 8l7.89 5.26a2 2 0 002.22 0L21 8M5 19h14a2 2 0 002-2V7a2 2 0 00-2-2H5a2 2 0 00-2 2v10a2 2 0 002 2z",
      false),
    Tab("statements", "Statements", "statements.html",
      "M9 17v-2m3 2v-4m3 4v-6m2 10H7a2 2 0 01-2-2V5a2 2 0 012-2h5.586a1 1 0 01.707.293l5.414 5.414a1 1 0 01.293.707V19a2 2 0 01-2 2z",
      false),
    Tab("bookkeeper", "Bookkeeper", "bookkeeper.html",
      "M17 20h5v-2a3 3 0 00-5.356-1.857M17 20H7m10 0v-2c0-.656-.126-1.283-.356-1.857M7 20H2v-2a3 3 0 015.356-1.857M7 20v-2c0-.656.126-1.283.356-1.857m0 0a5.002 5.002 0 019.288 0M15 7a3 3 0 11-6 0 3 3 0 016 0z",
      false),
    Tab("search", "Search", "search.html",
      "M21 21l-6-6m2-5a7 7 0 11-14 0 7 7 0 0114 0z",
      false),
    Tab("settings", "", "settings.html",
      "M10.325 4.317c.426-1.756 2.924-1.756 3.35 0a1.724 1.724 0 002.573 1.066c1.543-.94 3.31.826 2.37 2.37a1.724 1.724 0 001.065 2.572c1.756.426 1.756 2.924 0 3.35a1.724 1.724 0 00-1.066 2.573c.94 1.543-.826 3.31-2.37 2.37a1.724 1.724 0 00-2.572 1.065c-.426 1.756-2.924 1.756-3.35 0a1.724 1.724 0 00-2.573-1.066c-1.543.94-3.31-.826-2.37-2.37a1.724 1.724 0 00-1.065-2.572c-1.756-.426-1.756-2.924 0-3.35a1.724 1.724 0 001.066-2.573c-.94-1.543.826-3.31 2.37-2.37.996.608 2.296.07 2.572-1.065z M15 12a3 3 0 11-6 0 3 3 0 016 0z",
      true)
  ]

  function TabId(t: Tab): string {
    t.id
  }

  /**
   * The table is well formed: no two tabs share an id, and exactly one tab,
   * the last, is the settings button.
   */
  lemma TableWellFormed()
    ensures Ids(TABS, TabId) == ["invoices", "cores_warranty", "chat", "emails", "statements", "bookkeeper", "search", "settings"]
    ensures Distinct(Ids(TABS, TabId))
    ensures |TABS| > 0 && TABS[|TABS| - 1].isSettings
    ensures forall i :: 0 <= i < |TABS| - 1 ==> !TABS[i].isSettings
  {
  }

  /** The decisions `renderTabsHeader` makes for tab `t` at position `i`. */
  function TabAnchor(t: Tab, i: nat, activeTab: string): (a: Anchor)
    ensures a.href == t.href
    ensures a.active <==> t.id == activeTab
    ensures a.iconButton <==> t.isSettings
    ensures a.hasMargin <==> (t.isSettings || i > 0)
    ensures ShowsSvg(a)
    ensures ShowsLabel(a) <==> !t.isSettings
    ensures t.isSettings ==> a.content == [Svg(t.icon)]
    ensures !t.isSettings ==> a.content == [Svg(t.icon), Label(t.caption)]
  {
    var isActive := t.id == activeTab;
    var a :=
      if t.isSettings then Anchor(t.href, isActive, true, true, [Svg(t.icon)])
      else Anchor(t.href, isActive, i > 0, false, [Svg(t.icon), Label(t.caption)]);
    assert a.content[0].Svg?;
    assert !t.isSettings ==> a.content[1].Label?;
    a
  }

  /** `tabs.map((t, i) => ...)`: one anchor per tab, in table order. */
  function RenderTabs(tabs: seq<Tab>, activeTab: string): (r: seq<Anchor>)
    ensures |r| == |tabs|
    ensures forall i :: 0 <= i < |tabs| ==> r[i] == TabAnchor(tabs[i], i, activeTab)
  {
    seq(|tabs|, i requires 0 <= i < |tabs| => TabAnchor(tabs[i], i, activeTab))
  }

  /**
   * With any table whose ids are distinct, the header highlights exactly one
   * anchor when the active id names a tab and none when it names no tab;
   * an unknown id is not an error.
   */
  lemma HighlightsTheActiveTab(tabs: seq<Tab>, activeTab: string)
    requires Distinct(Ids(tabs, TabId))
    ensures CountActive(RenderTabs(tabs, activeTab)) == if activeTab in Ids(tabs, TabId) then 1 else 0
    ensures activeTab !in Ids(tabs, TabId) ==> forall a :: a in RenderTabs(tabs, activeTab) ==> !a.active
  {
    var r := RenderTabs(tabs, activeTab);
    CountActiveByIds(r, Ids(tabs, TabId), activeTab);
    if activeTab !in Ids(tabs, TabId) {
      forall a | a in r ensures !a.active {
        var i :| 0 <= i < |r| && r[i] == a;
        assert Ids(tabs, TabId)[i] == tabs[i].id;
      }
    }
  }

  /** On the shared table, at most one anchor is ever highlighted. */
  lemma AtMostOneHighlighted(activeTab: string)
    ensures CountActive(RenderTabs(TABS, activeTab)) <= 1
    ensures forall i, j :: 0 <= i < j < |TABS| ==> !(RenderTabs(TABS, activeTab)[i].active && RenderTabs(TABS, activeTab)[j].active)
  {
    TableWellFormed();
    HighlightsTheActiveTab(TABS, activeTab);
    var r := RenderTabs(TABS, activeTab);
    AtMostOneActive(r, Ids(TABS, TabId), activeTab);
  }

  /**
   * On the shared table every anchor but the first carries the margin, and
   * only the last is the icon-only settings button.
   */
  lemma MarginAndSettingsLayout(activeTab: string)
    ensures var r := RenderTabs(TABS, activeTab);
      && (forall i :: 0 <= i < |r| ==> (r[i].hasMargin <==> i > 0))
      && (forall i :: 0 <= i < |r| ==> (r[i].iconButton <==> i == |r| - 1))
      && (forall i :: 0 <= i < |r| ==> (ShowsLabel(r[i]) <==> i < |r| - 1))
  {
    TableWellFormed();
  }

  const ActiveClass := "bg-white text-slate-800 border-t border-l border-r border-slate-300"
  const InactiveClass := "bg-slate-100 text-slate-600 hover:bg-slate-50 border border-transparent"
  const PathAttrs := "<path stroke-linecap=\"round\" stroke-linejoin=\"round\" stroke-width=\"2\" d=\""
  const AnchorStart := "<a href=\""

  function SvgHtml(size: string, d: string): string {
    "<svg class=\"" + size + "\" fill=\"none\" stroke=\"currentColor\" viewBox=\"0 0 24 24\">" + PathAttrs + d + "\"></path></svg>"
  }

  function ContentHtml(c: Content, svgSize: string): string {
    match c
    case Svg(d) => SvgHtml(svgSize, d)
    case Label(text) => text
  }

  function ContentParts(content: seq<Content>, svgSize: string): (r: seq<string>)
    ensures |r| == |content| && forall k :: 0 <= k < |content| ==> r[k] == ContentHtml(content[k], svgSize)
  {
    seq(|content|, k requires 0 <= k < |content| => ContentHtml(content[k], svgSize))
  }

  function ContentsHtml(content: seq<Content>, svgSize: string): string {
    Join(ContentParts(content, svgSize))
  }

  /** Everything of the opening tag after `href="...`. */
  function ClassAttr(a: Anchor): string {
    var base := if a.active then ActiveClass else InactiveClass;
    if a.iconButton then
      " class=\"flex items-center justify-center w-10 h-10 rounded-t-lg ml-1 " + base + "\" title=\"Settings\">"
    else
      " class=\"flex items-center gap-2 px-5 py-2.5 text-sm font-medium rounded-t-lg "
        + (if a.hasMargin then "ml-1" else "") + " whitespace-nowrap " + base + "\">"
  }

  /** The markup of one anchor: its opening tag, its content in order, `</a>`. */
  function AnchorHtml(a: Anchor): (r: string)
    ensures AnchorStart + a.href + "\"" <= r
    ensures |r| >= 4 && r[|r| - 4..] == "</a>"
  {
    var open := AnchorStart + a.href + "\"";
    var mid := ClassAttr(a) + ContentsHtml(a.content, if a.iconButton then "w-5 h-5" else "w-4 h-4");
    Bracketed(open, mid, "</a>");
    open + mid + "</a>"
  }

  /** The inside of a plain tab: its icon, then its caption. */
  lemma PlainTabContents(icon: string, caption: string)
    ensures ContentsHtml([Svg(icon), Label(caption)], "w-4 h-4") == SvgHtml("w-4 h-4", icon) + caption
  {
    var svg := SvgHtml("w-4 h-4", icon);
    var parts := ContentParts([Svg(icon), Label(caption)], "w-4 h-4");
    assert parts == [svg] + [caption];
    JoinAppend([svg], [caption]);
    assert Join([caption]) == Join([]) + caption;
    assert Join([svg]) == Join([]) + svg;
  }

  /** The piece just before the closing text of `x + piece + close`. */
  lemma PieceBeforeClose(x: string, piece: string, close: string)
    ensures var r := x + piece + close;
      |r| >= |piece| + |close| && r[|r| - |close| - |piece|..|r| - |close|] == piece
  {
    Sandwich(x, piece, close);
  }

  /** A plain tab's label is the last thing inside its anchor, right after the icon. */
  lemma LabelClosesAnchor(a: Anchor, icon: string, caption: string)
    requires !a.iconButton && a.content == [Svg(icon), Label(caption)]
    ensures var r := AnchorHtml(a);
      |r| >= |caption| + 4 && r[|r| - 4 - |caption|..|r| - 4] == caption
  {
    var svg := SvgHtml("w-4 h-4", icon);
    PlainTabContents(icon, caption);
    var open := AnchorStart + a.href + "\"";
    var cls := ClassAttr(a);
    var contents := ContentsHtml(a.content, "w-4 h-4");
    assert AnchorHtml(a) == open + (cls + contents) + "</a>";
    assert contents == svg + caption;
    assert open + (cls + (svg + caption)) == (open + cls + svg) + caption;
    PieceBeforeClose(open + cls + svg, caption, "</a>");
  }

  function Fragments(anchors: seq<Anchor>): (r: seq<string>)
    ensures |r| == |anchors| && forall i :: 0 <= i < |anchors| ==> r[i] == AnchorHtml(anchors[i])
  {
    seq(|anchors|, i requires 0 <= i < |anchors| => AnchorHtml(anchors[i]))
  }

  const RefreshButton := "<button onclick=\"location.reload()\" class=\"px-3 py-1.5 bg-blue-800 hover:bg-blue-700 rounded-lg text-sm\">🔄 Refresh</button>"

  /**
   * The right-hand slot: `rightContent || <refresh button>`. A missing
   * argument defaults to `''`, so it, `''`, `null` and every other falsy
   * value give the refresh button; any truthy value is interpolated as is.
   */
  function RightSlot(rightContent: JsValue): (r: string)
    ensures rightContent == Undefined || rightContent == Null || rightContent == Str("") ==> r == RefreshButton
    ensures forall s :: s != "" && rightContent == Str(s) ==> r == s
    ensures rightContent.Other? ==> r == if rightContent.truthy then rightContent.text else RefreshButton
  {
    var given := if rightContent == Undefined then Str("") else rightContent;
    if Truthy(given) then ToJsString(given) else RefreshButton
  }

  const HeaderTop :=
    "<header class=\"bg-blue-900 text-white shadow-lg flex-shrink-0\">\n"
    + "    <div class=\"max-w-7xl mx-auto px-4 py-3\"><div class=\"flex items-center gap-4\">\n"
    + "      <div class=\"bg-yellow-400 text-blue-900 font-bold px-3 py-1 rounded text-lg\">NAPA</div>\n"
    + "      <div><h1 class=\"text-xl font-semibold\">Sylvan Lake AutoPro</h1><p class=\"text-blue-200 text-sm\">Business Dashboard</p></div>\n"
    + "      <div class=\"ml-auto\">"
  const HeaderNav :=
    "</div>\n"
    + "    </div></div>\n"
    + "    <div class=\"bg-blue-800\"><div class=\"max-w-7xl mx-auto px-4\"><div class=\"flex items-end pt-2 overflow-x-auto\">\n"
    + "      "
  const HeaderBottom :=
    "\n"
    + "    </div></div></div>\n"
    + "  </header>"

  /** Where the joined anchors start in the page for a given right-hand slot. */
  function TabsStart(rightContent: JsValue): nat {
    |HeaderTop| + |RightSlot(rightContent)| + |HeaderNav|
  }

  /** `renderTabsHeader(activeTab, rightContent)`. */
  function RenderTabsHeader(activeTab: string, rightContent: JsValue): (r: string)
    ensures HeaderTop + RightSlot(rightContent) + HeaderNav <= r
    ensures |r| == TabsStart(rightContent) + |Join(Fragments(RenderTabs(TABS, activeTab)))| + |HeaderBottom|
    ensures r[TabsStart(rightContent)..|r| - |HeaderBottom|] == Join(Fragments(RenderTabs(TABS, activeTab)))
    ensures r[|r| - |HeaderBottom|..] == HeaderBottom
  {
    var lead := HeaderTop + RightSlot(rightContent) + HeaderNav;
    var tabs := Join(Fragments(RenderTabs(TABS, activeTab)));
    Sandwich(lead, tabs, HeaderBottom);
    Bracketed(lead, tabs, HeaderBottom);
    lead + tabs + HeaderBottom
  }

  /** The id `cores_warranty` highlights the core and warranty tab; the hyphenated `cores-warranty` highlights nothing. */
  lemma CoreWarrantyHighlight()
    ensures CountActive(RenderTabs(TABS, "cores_warranty")) == 1
    ensures CountActive(RenderTabs(TABS, "cores-warranty")) == 0
  {
    TableWellFormed();
    var ids := Ids(TABS, TabId);
    assert ids[1] == "cores_warranty";
    assert "cores-warranty" !in ids;
    HighlightsTheActiveTab(TABS, "cores_warranty");
    HighlightsTheActiveTab(TABS, "cores-warranty");
  }
}
