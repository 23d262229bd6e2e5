// Tabbed content: the tabs read from a `nav-tabs` list and its `tab-content` block, the
// `Tab` field built for each, the truncation of long titles and the creation of the
// content.  Parsed HTML is given by what the extraction reads from it.

module TabContentCreator {
  import opened Wrappers
  import opened PyStr
  import opened StructuredContent
  import opened Collecting

  /** The `a` of a tab: its text (as `get_text(strip=True)` gives it), `href` and `style` (empty when absent). */
  datatype TabLink = TabLink(text: string, href: string, style: string)

  /** An `li` of the tab list, with its link if it has one. */
  datatype TabItem = TabItem(link: Option<TabLink>)

  /**
   * A page as the extraction reads it: whether it has a `ul.nav-tabs` and a
   * `div.tab-content`, the `li` of the list in order, and, for an id, the pruned HTML of
   * the pane with that id inside the tab content (`None` when there is none).
   */
  datatype TabPage = TabPage(hasList: bool, hasContent: bool, items: seq<TabItem>, panes: string -> Option<string>)

  /** One extracted tab. */
  datatype Tab = Tab(title: string, color: string, content: string)

  /** The colour of a tab: its style without `background-color: ` and `;`, trimmed. */
  function TabColor(style: string): (r: string)
    ensures ';' !in r
    ensures r != [] ==> r[0] !in Whitespace && r[|r| - 1] !in Whitespace
  {
    var s := Replace(Replace(style, "background-color: ", ""), ";", "");
    ReplaceRemoves(Replace(style, "background-color: ", ""), ';', "");
    StripSubset(s, Whitespace, ';');
    StripEnds(s, Whitespace);
    Strip(s)
  }

  /** A style that is already a bare colour is kept as it is. */
  lemma TabColorPlain(style: string)
    requires ';' !in style && 'b' !in style
    requires style != [] ==> style[0] !in Whitespace && style[|style| - 1] !in Whitespace
    ensures TabColor(style) == style
  {
    ContainsLacking(style, "background-color: ", 'b');
    ReplaceAbsent(style, "background-color: ", "");
    ContainsLacking(style, ";", ';');
    ReplaceAbsent(style, ";", "");
    StripUnchanged(style, Whitespace);
  }

  /** The tab read from one `li`: none without a link or without the pane its `href` names. */
  function TabOf(item: TabItem, panes: string -> Option<string>): (r: Option<Tab>)
    ensures r.Some? <==> item.link.Some? && panes(StripChars(item.link.value.href, {'#'})).Some?
  {
    match item.link
    case None => None
    case Some(link) =>
      match panes(StripChars(link.href, {'#'}))
      case None => None
      case Some(pane) => Some(Tab(link.text, TabColor(link.style), pane))
  }

  /** `_extract_tab_data`: nothing without the list or the content block, else the tabs that could be read. */
  function TabsOf(page: TabPage): seq<Tab>
  {
    if !page.hasList || !page.hasContent then []
    else Collected(page.items, (item: TabItem) => TabOf(item, page.panes))
  }

  /** The loop of `_extract_tab_data`. */
  method ExtractTabData(page: TabPage) returns (tabs: seq<Tab>)
    ensures tabs == TabsOf(page)
  {
    if !page.hasList || !page.hasContent {
      return [];
    }
    tabs := [];
    var read := (item: TabItem) => TabOf(item, page.panes);
    for i := 0 to |page.items|
      invariant tabs == Collected(page.items[..i], read)
    {
      CollectedSnoc(page.items, i, read);
      var link := page.items[i].link;
      if link.None? {
        continue;
      }
      var pane := page.panes(StripChars(link.value.href, {'#'}));
      if pane.None? {
        continue;
      }
      tabs := tabs + [Tab(link.value.text, TabColor(link.value.style), pane.value)];
    }
    assert page.items[..|page.items|] == page.items;
  }

  /** The `Tab` field of one tab. */
  function TabField(t: Tab): (r: ContentField)
    ensures NestedNames(r) == ["tab_title", "tab_color", "tab_btn_color", "content"]
    ensures r.nested[1].fieldValue == r.nested[2].fieldValue
  {
    ContentField("Tab", [
      NestedField("tab_title", FieldValue(t.title, None)),
      NestedField("tab_color", FieldValue(t.color, Some(t.color))),
      NestedField("tab_btn_color", FieldValue(t.color, Some(t.color))),
      NestedField("content", FieldValue(t.content, None))])
  }

  /**
   * A `Tab` field read back by field name; `None` when a part is missing or the two
   * colour fields disagree.
   */
  function TabFromField(f: ContentField): Option<Tab>
  {
    var title := Lookup(f.nested, "tab_title");
    var color := Lookup(f.nested, "tab_color");
    var button := Lookup(f.nested, "tab_btn_color");
    var content := Lookup(f.nested, "content");
    if f.name == "Tab" && title.Some? && color.Some? && button.Some? && content.Some?
       && color.value == button.value && color.value.value == Some(color.value.data)
    then Some(Tab(title.value.data, color.value.data, content.value.data))
    else None
  }

  /** A tab field reads back as its tab. */
  lemma TabFieldRoundTrip(t: Tab)
    ensures TabFromField(TabField(t)) == Some(t)
  {
    var n := TabField(t).nested;
    assert "tab_title"[4] != "tab_color"[4] && "tab_title"[4] != "tab_btn_color"[4];
    assert "tab_color"[4] != "tab_btn_color"[4];
    assert "tab_title"[0] != "content"[0] && "tab_color"[0] != "content"[0] && "tab_btn_color"[0] != "content"[0];
    assert n[1..][1..] == n[2..] && n[2..][1..] == n[3..];
    assert Lookup(n[3..], "content") == Some(FieldValue(t.content, None));
    assert Lookup(n[2..], "content") == Some(FieldValue(t.content, None));
    assert Lookup(n[1..], "content") == Some(FieldValue(t.content, None));
    assert Lookup(n[2..], "tab_btn_color") == Some(FieldValue(t.color, Some(t.color)));
    assert Lookup(n[1..], "tab_btn_color") == Some(FieldValue(t.color, Some(t.color)));
    assert Lookup(n[1..], "tab_color") == Some(FieldValue(t.color, Some(t.color)));
  }

  /** The fields of a list of tabs: one `Tab` field per tab, in order. */
  function TabFields(tabs: seq<Tab>): (r: seq<ContentField>)
    ensures |r| == |tabs| && forall i :: 0 <= i < |r| ==> TabFromField(r[i]) == Some(tabs[i])
  {
    if tabs == [] then []
    else
      var r := TabFields(tabs[..|tabs| - 1]) + [TabField(tabs[|tabs| - 1])];
      TabFieldRoundTrip(tabs[|tabs| - 1]);
      r
  }

  /** `process_tab_content`. */
  method ProcessTabContent(page: TabPage) returns (fields: seq<ContentField>)
    ensures fields == TabFields(TabsOf(page))
  {
    var tabs := ExtractTabData(page);
    if tabs == [] {
      return [];
    }
    fields := [];
    for i := 0 to |tabs|
      invariant fields == TabFields(tabs[..i])
    {
      assert tabs[..i + 1][..i] == tabs[..i];
      fields := fields + [TabField(tabs[i])];
    }
    assert tabs[..|tabs|] == tabs;
  }

  /** No list or no content block gives no fields; otherwise a link-less `li` or one without its pane is skipped. */
  lemma TabSelection(page: TabPage, item: TabItem)
    ensures !page.hasList || !page.hasContent ==> TabFields(TabsOf(page)) == []
    ensures page.hasList && page.hasContent && TabOf(item, page.panes).None? ==>
              TabsOf(page.(items := page.items + [item])) == TabsOf(page)
  {
    if page.hasList && page.hasContent && TabOf(item, page.panes).None? {
      var items := page.items + [item];
      assert items[..|items| - 1] == page.items;
    }
  }

  /** With every `li` linked to an existing pane, there is one field per `li`, in order. */
  lemma EveryTabKept(page: TabPage)
    requires page.hasList && page.hasContent
    requires forall i :: 0 <= i < |page.items| ==> TabOf(page.items[i], page.panes).Some?
    ensures |TabFields(TabsOf(page))| == |page.items|
    ensures forall i :: 0 <= i < |page.items| ==>
              TabFromField(TabFields(TabsOf(page))[i]) == TabOf(page.items[i], page.panes)
  {
    var read := (item: TabItem) => TabOf(item, page.panes);
    CollectedAll(page.items, read);
  }

  // ---------------------------------------------------------------- create_tab_content

  const MaxTitle: nat := 255

  /** A title over 255 characters becomes its first 250 followed by `...`. */
  function TruncateTitle(title: string): (r: string)
    ensures |r| <= MaxTitle
    ensures |title| <= MaxTitle ==> r == title
    ensures |title| > MaxTitle ==> |r| == 253 && r[..250] == title[..250] && r[250..] == "..."
  {
    if |title| > MaxTitle then title[..250] + "..." else title
  }

  /** Truncation is idempotent. */
  lemma TruncateTitleIdempotent(title: string)
    ensures TruncateTitle(TruncateTitle(title)) == TruncateTitle(title)
  {
  }

  /** `create_tab_content`: the content key, or `None` for `False`. */
  function CreateTabContent(title: string, page: TabPage, post: Payload -> nat -> PostReply): (r: Option<int>)
    ensures TabsOf(page) == [] ==> r.None?
  {
    CreateContent(Payload(TabFields(TabsOf(page)), TruncateTitle(title)), post)
  }
}
