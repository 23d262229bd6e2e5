// Pages that mix ordinary content with collapsible panels or tabs: how a page is split
// into sections, how each section is titled, and which creators' answers are collected.  The
// parsed page is abstracted to what the decisions read, and the three creators are given
// as functions.

module WebContentMixed {
  import opened Wrappers
  import opened PyStr
  import opened PyValues
  import WebContentCreator

  datatype Kind = Tabs | Regular | Collapsible

  datatype Section = Section(kind: Kind, content: string)

  /**
   * What the parser finds in a page: the number of `li` in the `nav-tabs` list (`None`
   * without one), whether a `tab-content` block exists, the HTML of the panel `div`s in
   * document order, and the page once they are removed.
   */
  datatype Soup = Soup(tabItems: Option<nat>, hasTabContent: bool, panels: seq<string>, remaining: string)

  predicate HasTabs(s: Soup)
  {
    s.tabItems.Some? && s.tabItems.value > 1 && s.hasTabContent
  }

  // ---------------------------------------------------------------- split_content

  /** `split_content`; `soup` is `None` where parsing raises. */
  function SplitContent(html: string, soup: Option<Soup>): (r: seq<Section>)
    ensures 1 <= |r| <= 2
    ensures |r| == 2 ==> r[0].kind == Regular && r[1].kind == Collapsible
    ensures forall i :: 0 <= i < |r| && r[i].kind == Tabs ==> r == [Section(Tabs, html)]
  {
    match soup
    case None => [Section(Regular, html)]
    case Some(s) =>
      if HasTabs(s) then [Section(Tabs, html)]
      else if s.panels == [] then [Section(Regular, html)]
      else
        (if Strip(s.remaining) != [] then [Section(Regular, s.remaining)] else [])
        + [Section(Collapsible, Join(s.panels, ""))]
  }

  /**
   * The cases of the split: tabs give the whole page as one tab section; no panels (or a
   * parse error) give the whole page as one regular section; otherwise the leftover
   * comes first when it is not blank and all panels follow as one collapsible section.
   */
  lemma SplitContentCases(html: string, soup: Option<Soup>)
    ensures soup.None? ==> SplitContent(html, soup) == [Section(Regular, html)]
    ensures soup.Some? && HasTabs(soup.value) ==> SplitContent(html, soup) == [Section(Tabs, html)]
    ensures soup.Some? && !HasTabs(soup.value) && soup.value.panels == [] ==>
              SplitContent(html, soup) == [Section(Regular, html)]
    ensures soup.Some? && !HasTabs(soup.value) && soup.value.panels != [] ==>
              var r := SplitContent(html, soup);
              && r[|r| - 1] == Section(Collapsible, Join(soup.value.panels, ""))
              && (|r| == 2 <==> Strip(soup.value.remaining) != [])
              && (|r| == 2 ==> r[0] == Section(Regular, soup.value.remaining))
  {
  }

  // ---------------------------------------------------------------- process_mixed_content

  /**
   * The content creators: structured (regular) content, collapse content and tab
   * content, each from a title and HTML, answering a Python value: the structured
   * creator's `{"id": …, "key": …}` dictionary, the other two's key or `False`.  `None`
   * stands for a creator that raises.
   */
  datatype Creators = Creators(
    structured: (string, string) -> Option<PyValue>,
    collapse: (string, string) -> Option<PyValue>,
    tabs: (string, string) -> Option<PyValue>)

  /** What `if content_id: content_ids.append(content_id)` collects from one answer. */
  function Kept(answer: Option<PyValue>): (r: seq<PyValue>)
    ensures |r| <= 1
    ensures r != [] <==> answer.Some? && Truthy(answer.value)
    ensures forall i :: 0 <= i < |r| ==> answer.Some? && r[i] == answer.value
  {
    if answer.Some? && Truthy(answer.value) then [answer.value] else []
  }

  /** How many of `ss` are regular (`regular`) or not (`!regular`). */
  function CountOf(ss: seq<Section>, regular: bool): (n: nat)
    ensures n <= |ss|
  {
    if ss == [] then 0
    else CountOf(ss[..|ss| - 1], regular) + (if (ss[|ss| - 1].kind == Regular) == regular then 1 else 0)
  }

  const PartLabel := " - Parte "
  const CollapsibleLabel := " - Se\U{00E7}\U{00E3}o Colaps\U{00E1}vel "

  /**
   * The title of a section of a page with several: the `k`-th regular section is
   * `"{title} - Parte {k}"` except the first, which keeps the title; a collapsible one
   * takes its panel title when that is not empty, and its number otherwise.
   */
  function SectionTitle(title: string, s: Section, regularNo: nat, collapsibleNo: nat, panelTitle: string): string
  {
    if s.kind == Regular then
      if regularNo > 1 then title + PartLabel + NatToString(regularNo) else title
    else if panelTitle != [] then title + " - " + panelTitle
    else title + CollapsibleLabel + NatToString(collapsibleNo)
  }

  /** The title of section `i`, numbered among the sections up to and including it. */
  function TitleAt(title: string, sections: seq<Section>, i: nat, panelTitle: string -> string): string
    requires i < |sections|
  {
    SectionTitle(title, sections[i], CountOf(sections[..i + 1], true), CountOf(sections[..i + 1], false),
                 panelTitle(sections[i].content))
  }

  function CreateSection(c: Creators, sectionTitle: string, s: Section): Option<PyValue>
  {
    if s.kind == Regular then c.structured(sectionTitle, s.content) else c.collapse(sectionTitle, s.content)
  }

  /** The answers collected from the first `n` sections, in order. */
  function IdsUpTo(title: string, sections: seq<Section>, n: nat, c: Creators, panelTitle: string -> string): (r: seq<PyValue>)
    requires n <= |sections|
    ensures |r| <= n
  {
    if n == 0 then []
    else IdsUpTo(title, sections, n - 1, c, panelTitle)
         + Kept(CreateSection(c, TitleAt(title, sections, n - 1, panelTitle), sections[n - 1]))
  }

  /** What a page on its own gives: the section under the page title, by its kind. */
  function SingleId(title: string, s: Section, c: Creators): seq<PyValue>
  {
    Kept(match s.kind
         case Tabs => c.tabs(title, s.content)
         case Regular => c.structured(title, s.content)
         case Collapsible => c.collapse(title, s.content))
  }

  /**
   * The answers `process_mixed_content` returns.  `panelTitle` gives the stripped text of the
   * first `.panel-title` of some HTML (empty without one).
   */
  function MixedIds(title: string, html: string, soup: Option<Soup>, c: Creators, panelTitle: string -> string): seq<PyValue>
  {
    var sections := SplitContent(html, soup);
    if |sections| == 1 then SingleId(title, sections[0], c)
    else IdsUpTo(title, sections, |sections|, c, panelTitle)
  }

  lemma CountOfSnoc(ss: seq<Section>, i: nat, regular: bool)
    requires i < |ss|
    ensures CountOf(ss[..i + 1], regular) == CountOf(ss[..i], regular) + (if (ss[i].kind == Regular) == regular then 1 else 0)
  {
    assert ss[..i + 1][..i] == ss[..i];
  }

  /** `process_mixed_content`: the loop over the sections with its two counters. */
  method ProcessMixedContent(title: string, html: string, soup: Option<Soup>, c: Creators,
                             panelTitle: string -> string) returns (ids: seq<PyValue>)
    ensures ids == MixedIds(title, html, soup, c, panelTitle)
  {
    var sections := SplitContent(html, soup);
    if |sections| == 1 {
      var section := sections[0];
      var id := match section.kind
        case Tabs => c.tabs(title, section.content)
        case Regular => c.structured(title, section.content)
        case Collapsible => c.collapse(title, section.content);
      ids := if id.Some? && Truthy(id.value) then [id.value] else [];
      return;
    }
    ids := [];
    var regularCount := 0;
    var collapsibleCount := 0;
    for i := 0 to |sections|
      invariant regularCount == CountOf(sections[..i], true)
      invariant collapsibleCount == CountOf(sections[..i], false)
      invariant ids == IdsUpTo(title, sections, i, c, panelTitle)
    {
      var section := sections[i];
      CountOfSnoc(sections, i, true);
      CountOfSnoc(sections, i, false);
      var sectionTitle;
      if section.kind == Regular {
        regularCount := regularCount + 1;
        sectionTitle := if regularCount > 1 then title + PartLabel + NatToString(regularCount) else title;
      } else {
        collapsibleCount := collapsibleCount + 1;
        var pt := panelTitle(section.content);
        sectionTitle := if pt != [] then title + " - " + pt else title + CollapsibleLabel + NatToString(collapsibleCount);
      }
      var id := if section.kind == Regular then c.structured(sectionTitle, section.content)
                else c.collapse(sectionTitle, section.content);
      if id.Some? && Truthy(id.value) {
        ids := ids + [id.value];
      }
    }
  }

  /** Only truthy answers are collected, at most one per section. */
  lemma {:induction false} IdsUpToTruthy(title: string, sections: seq<Section>, n: nat, c: Creators,
                                         panelTitle: string -> string)
    requires n <= |sections|
    ensures forall i :: 0 <= i < |IdsUpTo(title, sections, n, c, panelTitle)| ==> Truthy(IdsUpTo(title, sections, n, c, panelTitle)[i])
    decreases n
  {
    if n > 0 {
      IdsUpToTruthy(title, sections, n - 1, c, panelTitle);
    }
  }

  /**
   * Every returned answer is truthy; a page with one section yields at most one, created
   * under the page title itself.
   */
  lemma MixedIdsTruthy(title: string, html: string, soup: Option<Soup>, c: Creators, panelTitle: string -> string)
    ensures forall i :: 0 <= i < |MixedIds(title, html, soup, c, panelTitle)| ==> Truthy(MixedIds(title, html, soup, c, panelTitle)[i])
    ensures |MixedIds(title, html, soup, c, panelTitle)| <= |SplitContent(html, soup)|
    ensures |SplitContent(html, soup)| == 1 ==> MixedIds(title, html, soup, c, panelTitle) == SingleId(title, SplitContent(html, soup)[0], c)
  {
    var sections := SplitContent(html, soup);
    if |sections| != 1 {
      IdsUpToTruthy(title, sections, |sections|, c, panelTitle);
    }
  }

  /** A section whose creator raises or answers falsy adds nothing; the others keep their order. */
  lemma IdsUpToSkipsFailure(title: string, sections: seq<Section>, n: nat, c: Creators, panelTitle: string -> string)
    requires 0 < n <= |sections|
    requires var id := CreateSection(c, TitleAt(title, sections, n - 1, panelTitle), sections[n - 1]);
             id.None? || !Truthy(id.value)
    ensures IdsUpTo(title, sections, n, c, panelTitle) == IdsUpTo(title, sections, n - 1, c, panelTitle)
  {
  }

  /**
   * A regular section whose structured creation failed still adds the creator's failure
   * dictionary `{"id": 0, "key": ""}`: the dictionary is not empty, so it is truthy.
   */
  lemma IdsUpToKeepsStructuredFailure(title: string, sections: seq<Section>, n: nat, c: Creators,
                                      panelTitle: string -> string)
    requires 0 < n <= |sections| && sections[n - 1].kind == Regular
    requires c.structured(TitleAt(title, sections, n - 1, panelTitle), sections[n - 1].content)
             == Some(WebContentCreator.Failed)
    ensures IdsUpTo(title, sections, n, c, panelTitle)
            == IdsUpTo(title, sections, n - 1, c, panelTitle) + [WebContentCreator.Failed]
  {
    assert "id" in WebContentCreator.Failed.entries;
  }

  /**
   * A page split in two: the leftover regular content keeps the page title and the
   * panels are titled after their panel title, or as collapsible section 1.
   */
  lemma TwoSectionTitles(title: string, html: string, soup: Option<Soup>, panelTitle: string -> string)
    requires |SplitContent(html, soup)| == 2
    ensures var ss := SplitContent(html, soup);
            && TitleAt(title, ss, 0, panelTitle) == title
            && TitleAt(title, ss, 1, panelTitle)
               == (if panelTitle(ss[1].content) != [] then title + " - " + panelTitle(ss[1].content)
                   else title + CollapsibleLabel + "1")
  {
    var ss := SplitContent(html, soup);
    assert ss[..1] == [ss[0]] && [ss[0]][..0] == [];
    assert ss[..2] == ss && ss[..2][..1] == [ss[0]];
    assert CountOf(ss[..2], false) == 1;
    assert NatToString(1) == "1";
  }

  /** The `k`-th regular section of a longer list is titled `"{title} - Parte {k}"` when `k > 1`. */
  lemma RegularPartTitle(title: string, sections: seq<Section>, i: nat, panelTitle: string -> string)
    requires i < |sections| && sections[i].kind == Regular
    ensures var k := CountOf(sections[..i + 1], true);
            k >= 1 && TitleAt(title, sections, i, panelTitle) == (if k > 1 then title + PartLabel + NatToString(k) else title)
  {
    CountOfSnoc(sections, i, true);
  }
}
