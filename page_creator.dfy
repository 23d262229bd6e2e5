/**
 * `PageCreator`: the menu helpers of a page layout, the page cache consulted before a
 * page is created, and the walk down a page hierarchy. The request that creates a page
 * on the server is an oracle `create`: it maps a request to the new page's ID, `0` for
 * a failure (a non-2xx answer or an exception inside `create_page`). Every page name is
 * built with `normalize_page_name` as written, whose connectives hold the mojibake `Ã©`
 * (`PageProcessor.NormalizePageNameAsWritten`), so a second word `é` is capitalised.
 */
module PageCreator {
  import opened Wrappers
  import opened PyStr
  import PageProcessor

  // ---------------------------------------------------------------- hierarchy helpers

  const DefaultMenuTitle: string := "Menu de Navega\U{00E7}\U{00E3}o"

  /** A level naming the root page, in any case. */
  predicate IsRoot(level: string) { Lower(level) == "raiz" }

  /** `[x for x in hierarchy if x.lower() != 'raiz']`. */
  function WithoutRoot(h: seq<string>): (r: seq<string>)
    ensures |r| <= |h|
    ensures forall i :: 0 <= i < |r| ==> !IsRoot(r[i])
  {
    if h == [] then [] else (if IsRoot(h[0]) then [] else [h[0]]) + WithoutRoot(h[1..])
  }

  /** The levels kept are exactly those not named `raiz` in any case. */
  lemma {:induction false} WithoutRootMembers(h: seq<string>, x: string)
    ensures x in WithoutRoot(h) <==> x in h && !IsRoot(x)
  {
    if h != [] {
      WithoutRootMembers(h[1..], x);
      assert x in h <==> x == h[0] || x in h[1..];
    }
  }

  lemma {:induction false} WithoutRootIdempotent(h: seq<string>)
    ensures WithoutRoot(WithoutRoot(h)) == WithoutRoot(h)
  {
    if h != [] {
      WithoutRootIdempotent(h[1..]);
      var rest := WithoutRoot(h[1..]);
      if !IsRoot(h[0]) {
        assert WithoutRoot(h) == [h[0]] + rest;
        assert ([h[0]] + rest)[1..] == rest;
      } else {
        assert WithoutRoot(h) == rest;
      }
    }
  }

  /** The level a menu is named after: the second-to-last of three or more levels, else the last. */
  function MenuLevelName(hierarchy: seq<string>): (r: Option<string>)
    ensures var c := WithoutRoot(hierarchy); c == [] <==> r.None?
    ensures var c := WithoutRoot(hierarchy); |c| >= 3 ==> r == Some(c[|c| - 2])
    ensures var c := WithoutRoot(hierarchy); 0 < |c| < 3 ==> r == Some(c[|c| - 1])
  {
    var c := WithoutRoot(hierarchy);
    if c == [] then None
    else if |c| >= 3 then Some(c[|c| - 2])
    else Some(c[|c| - 1])
  }

  /** `_extract_menu_title_from_hierarchy(hierarchy)`; a missing hierarchy behaves as an empty one. */
  function MenuTitleFromHierarchy(hierarchy: seq<string>): (r: string)
    ensures MenuLevelName(hierarchy).None? ==> r == DefaultMenuTitle
    ensures MenuLevelName(hierarchy).Some? ==> r == PageProcessor.NormalizePageNameAsWritten(MenuLevelName(hierarchy).value)
  {
    match MenuLevelName(hierarchy)
    case None => DefaultMenuTitle
    case Some(level) => PageProcessor.NormalizePageNameAsWritten(level)
  }

  /** The menu title depends only on the levels other than the root. */
  lemma MenuTitleIgnoresRoot(hierarchy: seq<string>)
    ensures MenuTitleFromHierarchy(WithoutRoot(hierarchy)) == MenuTitleFromHierarchy(hierarchy)
  {
    WithoutRootIdempotent(hierarchy);
  }

  /** A named menu gets an empty title exactly when the level it is named after is blank. */
  lemma MenuTitleBlank(hierarchy: seq<string>)
    requires MenuLevelName(hierarchy).Some?
    ensures MenuTitleFromHierarchy(hierarchy) == [] <==> Strip(MenuLevelName(hierarchy).value) == []
  {
  }

  /** `_determine_menu_level_from_hierarchy(hierarchy)`. */
  function MenuLevelFromHierarchy(hierarchy: seq<string>): (r: int)
    ensures r == 0 || r == 1
    ensures r == 1 <==> |WithoutRoot(hierarchy)| > 2
  {
    if hierarchy == [] then 0
    else
      var depth := if |WithoutRoot(hierarchy)| < 4 then |WithoutRoot(hierarchy)| else 4;
      if depth > 2 then 1 else 0
  }

  // ---------------------------------------------------------------- layout settings

  const MenuMarker: string := "SiteNavigationMenuPortlet"
  const MenuPortlet: string := MenuModule + WebPortlet + MenuMarker + Instance
  const JournalPortlet: string := JournalModule + WebPortlet + "JournalContentPortlet" + Instance
  const MenuModule: string := "com_liferay_site_navigation_menu"
  const JournalModule: string := "com_liferay_journal_content"
  const WebPortlet: string := "_web_portlet_"
  const Instance: string := "_INSTANCE_"

  /** `f"{x}"` of an optional string: `None` renders as the text `None`. */
  function Render(s: Option<string>): string
  {
    match s
    case None => "None"
    case Some(v) => v
  }

  function OneColumnSettings(randomId: nat, linkedUrl: Option<string>): string
  {
    "column-1=" + JournalPortlet + NatToString(randomId) + "\nlayoutUpdateable=true\nurl=" + Render(linkedUrl)
      + "\nlayout-template-id=1_column\n"
  }

  /** The first line of a two-column layout, which names the menu portlet. */
  function MenuLine(randomId: nat): string
  {
    "column-1=" + MenuPortlet + NatToString(randomId)
  }

  /** The lines of a two-column layout after the menu line. */
  function TwoColumnRest(randomId: nat): string
  {
    "column-2=" + JournalPortlet + NatToString(randomId) + "\nlayout-template-id=2_columns_ii\n"
  }

  function TwoColumnSettings(randomId: nat): string
  {
    MenuLine(randomId) + "\n" + TwoColumnRest(randomId)
  }

  /**
   * `_get_type_settings(column_type, url_vinculada)`; `randomId` is the value of
   * `random.randint(10000, 99999)`.
   */
  function TypeSettings(columnType: string, linkedUrl: Option<string>, randomId: nat): (r: string)
    requires 10000 <= randomId <= 99999
    ensures columnType != "1_column" && columnType != "2_columns_ii" ==> r == []
    ensures columnType == "1_column" ==> r == OneColumnSettings(randomId, linkedUrl)
    ensures columnType == "2_columns_ii" ==> r == TwoColumnSettings(randomId)
  {
    if columnType == "1_column" then OneColumnSettings(randomId, linkedUrl)
    else if columnType == "2_columns_ii" then TwoColumnSettings(randomId)
    else []
  }

  /** The first line naming the menu portlet that has an `=`, the text after it stripped. */
  function MenuIdInLines(lines: seq<string>): Option<string>
  {
    if lines == [] then None
    else if Contains(lines[0], MenuMarker) && |Split(lines[0], '=')| > 1 then Some(Strip(Split(lines[0], '=')[1]))
    else MenuIdInLines(lines[1..])
  }

  /** What `_extract_menu_portlet_id(type_settings)` returns. */
  function MenuPortletIdOf(settings: string): Option<string>
  {
    if !Contains(settings, MenuMarker) then None else MenuIdInLines(Split(settings, '\n'))
  }

  /** `_extract_menu_portlet_id(type_settings)`. */
  method ExtractMenuPortletId(settings: string) returns (r: Option<string>)
    ensures r == MenuPortletIdOf(settings)
    ensures r.Some? ==> Contains(settings, MenuMarker)
  {
    if !Contains(settings, MenuMarker) {
      return None;
    }
    var lines := Split(settings, '\n');
    for i := 0 to |lines|
      invariant MenuIdInLines(lines[i..]) == MenuIdInLines(lines)
    {
      assert lines[i..][1..] == lines[i + 1..];
      if Contains(lines[i], MenuMarker) {
        var parts := Split(lines[i], '=');
        if |parts| > 1 {
          return Some(Strip(parts[1]));
        }
      }
    }
    assert lines[|lines|..] == [];
    return None;
  }

  /** Facts about the literal texts of the settings. */
  lemma MenuPortletText()
    ensures '=' !in MenuPortlet && '\n' !in MenuPortlet && MenuPortlet[45..70] == MenuMarker
  {
    PortletPartsLack('=');
    PortletPartsLack('\n');
    MarkerText();
    AbsentFromConcat(MenuModule, WebPortlet, '=');
    AbsentFromConcat(MenuModule + WebPortlet, MenuMarker, '=');
    AbsentFromConcat(MenuModule + WebPortlet + MenuMarker, Instance, '=');
    AbsentFromConcat(MenuModule, WebPortlet, '\n');
    AbsentFromConcat(MenuModule + WebPortlet, MenuMarker, '\n');
    AbsentFromConcat(MenuModule + WebPortlet + MenuMarker, Instance, '\n');
    MiddleOfConcat(MenuModule + WebPortlet, MenuMarker, Instance);
  }

  lemma PortletPartsLack(c: char)
    requires c == '=' || c == '\n'
    ensures c !in MenuModule && c !in WebPortlet && c !in Instance
  {
  }

  lemma OneColumnTexts()
    ensures 'M' !in "column-1=" + JournalPortlet && 'M' !in "\nlayoutUpdateable=true\nurl="
    ensures 'M' !in "\nlayout-template-id=1_column\n"
  {
    JournalPartsLackM();
    AbsentFromConcat("column-1=", JournalModule, 'M');
    AbsentFromConcat("column-1=" + JournalModule, WebPortlet, 'M');
    AbsentFromConcat("column-1=" + JournalModule + WebPortlet, "JournalContentPortlet", 'M');
    AbsentFromConcat("column-1=" + JournalModule + WebPortlet + "JournalContentPortlet", Instance, 'M');
    assert "column-1=" + JournalPortlet == "column-1=" + JournalModule + WebPortlet + "JournalContentPortlet" + Instance;
    LayoutTextsLackM();
  }

  lemma JournalPartsLackM()
    ensures 'M' !in "column-1=" && 'M' !in JournalModule && 'M' !in WebPortlet
    ensures 'M' !in "JournalContentPortlet" && 'M' !in Instance
  {
  }

  lemma LayoutTextsLackM()
    ensures 'M' !in "\nlayoutUpdateable=true\nurl=" && 'M' !in "\nlayout-template-id=1_column\n"
  {
  }

  lemma MarkerText()
    ensures 'M' in MenuMarker && '=' !in MenuMarker && '\n' !in MenuMarker
  {
    assert MenuMarker[14] == 'M';
  }

  lemma DigitsLack(d: string, c: char)
    requires IsDigits(d) && !IsDigit(c)
    ensures c !in d
  {
  }

  lemma MenuPortletNamesMarker()
    ensures Contains(MenuPortlet, MenuMarker)
  {
    MenuPortletText();
    ContainsAt(MenuPortlet, MenuMarker, 45);
  }

  /** The menu line of a two-column layout splits at `=` into the column and the portlet ID. */
  lemma MenuLineParts(randomId: nat)
    ensures Split(MenuLine(randomId), '=') == ["column-1", MenuPortlet + NatToString(randomId)]
  {
    var d := NatToString(randomId);
    MenuPortletText();
    assert '=' !in "column-1";
    DigitsLack(d, '=');
    assert "column-1=" + MenuPortlet + d == "column-1" + ['='] + (MenuPortlet + d);
    SplitAfterField("column-1", MenuPortlet + d, '=');
    SplitNoSep(MenuPortlet + d, '=');
  }

  lemma MenuLineHasMarker(randomId: nat)
    ensures Contains(MenuLine(randomId), MenuMarker)
  {
    MenuPortletNamesMarker();
    ContainsPrepend("column-1=", MenuPortlet, MenuMarker);
    ContainsAppend("column-1=" + MenuPortlet, NatToString(randomId), MenuMarker);
  }

  lemma MenuLineSingle(randomId: nat)
    ensures '\n' !in MenuLine(randomId)
  {
    MenuPortletText();
    DigitsLack(NatToString(randomId), '\n');
    assert '\n' !in "column-1=";
  }

  lemma TwoColumnShape(randomId: nat)
    ensures Contains(TwoColumnSettings(randomId), MenuMarker)
    ensures Split(TwoColumnSettings(randomId), '\n')[0] == MenuLine(randomId)
  {
    var line := MenuLine(randomId);
    var rest := TwoColumnRest(randomId);
    assert TwoColumnSettings(randomId) == line + (['\n'] + rest);
    MenuLineHasMarker(randomId);
    ContainsAppend(line, ['\n'] + rest, MenuMarker);
    MenuLineSingle(randomId);
    SplitAfterField(line, rest, '\n');
  }

  /** For a two-column layout the menu portlet is found, carrying the random ID. */
  lemma TwoColumnMenuId(linkedUrl: Option<string>, randomId: nat)
    requires 10000 <= randomId <= 99999
    ensures MenuPortletIdOf(TypeSettings("2_columns_ii", linkedUrl, randomId)) == Some(MenuPortlet + NatToString(randomId))
  {
    var s := TwoColumnSettings(randomId);
    TwoColumnShape(randomId);
    MenuLineParts(randomId);
    var lines := Split(s, '\n');
    MenuLineHasMarker(randomId);
    StripUnchanged(MenuPortlet + NatToString(randomId), Whitespace);
  }

  /** For a one-column layout no menu portlet is found, whatever linked URL it carries. */
  lemma OneColumnNoMenu(linkedUrl: Option<string>, randomId: nat)
    requires 10000 <= randomId <= 99999
    requires !Contains(Render(linkedUrl), MenuMarker)
    ensures MenuPortletIdOf(TypeSettings("1_column", linkedUrl, randomId)) == None
  {
    var u := Render(linkedUrl);
    var a := "column-1=" + JournalPortlet + NatToString(randomId) + "\nlayoutUpdateable=true\nurl=";
    var b := "\nlayout-template-id=1_column\n";
    assert OneColumnSettings(randomId, linkedUrl) == (a + u) + b;
    OneColumnTexts();
    MarkerText();
    DigitsLack(NatToString(randomId), 'M');
    assert 'M' !in a && 'M' !in b;
    if Contains((a + u) + b, MenuMarker) {
      ContainsConcat(a + u, b, MenuMarker);
      ContainsLacking(b, MenuMarker, 'M');
      ContainsConcat(a, u, MenuMarker);
      ContainsLacking(a, MenuMarker, 'M');
    }
  }

  // ---------------------------------------------------------------- page creation

  /** The layout choices passed unchanged down a hierarchy to every page it creates. */
  datatype PageOptions = PageOptions(
    pageType: string, visible: bool, columnType: string,
    menuTitle: Option<string>, linkedUrl: Option<string>)

  /**
   * One call of `create_page`, with the title and friendly URL it was given; the
   * `add-layout` request it sends carries them normalised (`SentName`, `SentUrl`).
   */
  datatype PageRequest = PageRequest(
    title: string, friendlyUrl: string, parentId: int, hierarchy: seq<string>, options: PageOptions)

  /** The `name` of the page in the request: the normalised title. */
  function SentName(r: PageRequest): string
  {
    PageProcessor.NormalizePageNameAsWritten(r.title)
  }

  /** As written, a page titled `a é` is sent under the name `A É`. */
  lemma SentNameMojibake(r: PageRequest)
    requires r.title == "a \U{00E9}"
    ensures SentName(r) == "A \U{00C9}"
  {
    PageProcessor.MojibakeExample();
  }

  /** The `friendlyURL` of the page in the request: the normalised URL. */
  function SentUrl(r: PageRequest): string
  {
    PageProcessor.NormalizeFriendlyUrl(r.friendlyUrl)
  }

  /** A request names the page after its normalised title and carries a well-formed friendly URL. */
  lemma RequestShape(r: PageRequest)
    ensures SentName(r) == [] <==> Strip(r.title) == []
    ensures PageProcessor.IsFriendlyUrl(SentUrl(r))
  {
    PageProcessor.FriendlyUrlSound(r.friendlyUrl);
  }

  /** Storing a non-zero ID keeps every cached ID non-zero. */
  lemma CacheStore(cache: map<string, int>, key: string, id: int)
    requires ValidCache(cache) && id != 0
    ensures ValidCache(cache[key := id])
  {
  }

  /** The page cache and the requests sent so far. */
  datatype Pages = Pages(cache: map<string, int>, requests: seq<PageRequest>)

  /** A page ID together with the pages state after it was found or created. */
  datatype Ensured = Ensured(id: int, pages: Pages)

  /** Every cached page ID is non-zero: a failed creation is never cached. */
  predicate ValidCache(cache: map<string, int>)
  {
    forall k :: k in cache ==> cache[k] != 0
  }

  /**
   * The `create_page` call `ensure_page_exists` makes on a miss: without a friendly URL, it
   * passes its title's friendly URL, which `create_page` normalises again.
   */
  function EnsureRequest(title: string, friendlyUrl: string, parentId: int, hierarchy: seq<string>,
                         options: PageOptions): PageRequest
  {
    PageRequest(title, if friendlyUrl == [] then PageProcessor.NormalizeFriendlyUrl(title) else friendlyUrl,
                parentId, hierarchy, options)
  }

  /**
   * `ensure_page_exists(…, cache_key, …)` with `request` the page it would create: the cached
   * ID on a hit, with nothing sent; otherwise one request, its ID cached only when non-zero.
   */
  function Ensure(p: Pages, create: PageRequest -> int, cacheKey: string, request: PageRequest): (r: Ensured)
    ensures cacheKey in p.cache ==> r == Ensured(p.cache[cacheKey], p)
    ensures cacheKey !in p.cache ==> r.id == create(request) && r.pages.requests == p.requests + [request]
    ensures cacheKey !in p.cache && r.id != 0 ==> r.pages.cache == p.cache[cacheKey := r.id]
    ensures cacheKey !in p.cache && r.id == 0 ==> r.pages.cache == p.cache
    ensures ValidCache(p.cache) ==> ValidCache(r.pages.cache)
  {
    if cacheKey in p.cache then Ensured(p.cache[cacheKey], p)
    else
      var id := create(request);
      Ensured(id, Pages(if id != 0 then p.cache[cacheKey := id] else p.cache, p.requests + [request]))
  }

  /**
   * On a miss the page is sent under the normalised title and, without a friendly URL, under
   * the title's friendly URL: normalised again, it is itself.
   */
  lemma EnsureRequestSent(title: string, friendlyUrl: string, parentId: int, hierarchy: seq<string>,
                          options: PageOptions)
    ensures SentName(EnsureRequest(title, friendlyUrl, parentId, hierarchy, options)) == PageProcessor.NormalizePageNameAsWritten(title)
    ensures SentUrl(EnsureRequest(title, friendlyUrl, parentId, hierarchy, options))
         == PageProcessor.NormalizeFriendlyUrl(if friendlyUrl == [] then title else friendlyUrl)
  {
    PageProcessor.FriendlyUrlIdempotent(title);
  }

  // ---------------------------------------------------------------- hierarchy walk

  /** The normalised name of every level. */
  function Names(levels: seq<string>): (r: seq<string>)
    ensures |r| == |levels|
  {
    seq(|levels|, i requires 0 <= i < |levels| => PageProcessor.NormalizePageNameAsWritten(levels[i]))
  }

  /** `current_path` after the given names: each appended as `" > name"`, or as `name` while the path is empty. */
  function PathKey(names: seq<string>): string
    decreases |names|
  {
    if names == [] then []
    else
      var path := PathKey(names[..|names| - 1]);
      var name := names[|names| - 1];
      if path == [] then name else path + " > " + name
  }

  /** The cache key of level `i`: the path through its normalised name. */
  function LevelKey(levels: seq<string>, i: nat): string
    requires i < |levels|
  {
    PathKey(Names(levels)[..i + 1])
  }

  /** `levels.index(x)`: the position of the first occurrence. */
  function FirstIndex(levels: seq<string>, x: string): (k: nat)
    requires x in levels
    ensures k < |levels| && levels[k] == x && x !in levels[..k]
  {
    if levels[0] == x then 0
    else
      assert x in levels[1..];
      var k := 1 + FirstIndex(levels[1..], x);
      assert levels[..k] == [levels[0]] + levels[1..][..k - 1];
      k
  }

  /** `hierarchy_levels[:hierarchy_levels.index(level) + 1]` for the level at position `i`. */
  function SubHierarchy(levels: seq<string>, i: nat): seq<string>
    requires i < |levels|
  {
    levels[..FirstIndex(levels, levels[i]) + 1]
  }

  /** `_should_create_final_page(hierarchy_levels, final_title)`. */
  predicate ShouldCreateFinal(levels: seq<string>, finalTitle: string)
  {
    levels == []
    || Lower(PageProcessor.NormalizePageNameAsWritten(finalTitle)) != Lower(PageProcessor.NormalizePageNameAsWritten(levels[|levels| - 1]))
  }

  /** The hierarchy of the final page: the levels, with the final title appended unless it is one of them. */
  function FinalHierarchy(levels: seq<string>, finalTitle: string): seq<string>
  {
    if finalTitle in levels then levels else levels + [finalTitle]
  }

  /** Where a walk down the levels stopped: the last page found or created, and whether a level failed. */
  datatype Walked = Walked(parentId: int, failed: bool, pages: Pages)

  /**
   * What `create_hierarchy` passes to `ensure_page_exists` for one level: the cache key, the
   * title and the sub-hierarchy (the parent is known only during the walk).
   */
  datatype Level = Level(key: string, title: string, hierarchy: seq<string>)

  /** The request `ensure_page_exists` sends for `level` under the page `parentId`, with no friendly URL. */
  function LevelRequest(level: Level, parentId: int, options: PageOptions): PageRequest
  {
    EnsureRequest(level.title, [], parentId, level.hierarchy, options)
  }

  /**
   * The plan of `create_hierarchy` for its levels: level `i` is ensured with the name of its
   * title as the page title and the path through it as the cache key.
   */
  function Plan(levels: seq<string>): (r: seq<Level>)
    ensures |r| == |levels|
  {
    seq(|levels|, i requires 0 <= i < |levels| => Level(LevelKey(levels, i), Names(levels)[i], SubHierarchy(levels, i)))
  }

  /**
   * The loop of `create_hierarchy` from level `i` on, under the page `parentId`: each level is
   * ensured under its key with the request `request(level, parent)`; its ID becomes the next
   * parent, and a zero ID stops the walk.
   */
  function WalkFrom(plan: seq<Level>, request: (Level, int) -> PageRequest, i: nat, parentId: int, p: Pages,
                    create: PageRequest -> int): Walked
    requires i <= |plan|
    decreases |plan| - i
  {
    if i == |plan| then Walked(parentId, false, p)
    else
      var e := Ensure(p, create, plan[i].key, request(plan[i], parentId));
      if e.id != 0 then WalkFrom(plan, request, i + 1, e.id, e.pages, create)
      else Walked(parentId, true, e.pages)
  }

  /** The request of every level, made with the same layout options. */
  function LevelRequests(options: PageOptions): (Level, int) -> PageRequest
  {
    (level: Level, parentId: int) => LevelRequest(level, parentId, options)
  }

  /** The walk of `create_hierarchy` down the given levels. */
  function WalkLevels(levels: seq<string>, p: Pages, create: PageRequest -> int, options: PageOptions): Walked
  {
    WalkFrom(Plan(levels), LevelRequests(options), 0, 0, p, create)
  }

  /**
   * `create_hierarchy(hierarchy, final_title, final_url, …)`: walk the levels other than the root,
   * `0` as soon as one fails; then the final page, created directly under the last level when
   * it is not that level again, and its ID returned when non-zero.
   */
  function Hierarchy(p: Pages, create: PageRequest -> int, hierarchy: seq<string>, finalTitle: string,
                     finalUrl: string, options: PageOptions): (r: Ensured)
    ensures var w := WalkLevels(WithoutRoot(hierarchy), p, create, options);
      w.failed ==> r == Ensured(0, w.pages)
  {
    var levels := WithoutRoot(hierarchy);
    var w := WalkLevels(levels, p, create, options);
    if w.failed then Ensured(0, w.pages)
    else FinalPage(w.pages, create, levels, finalTitle, finalUrl, w.parentId, options)
  }

  /**
   * The end of `create_hierarchy` once every level exists under `parentId`: the final page is
   * created there unless it is the last level again; its ID is returned when non-zero, and
   * `parentId` otherwise.
   */
  function FinalPage(p: Pages, create: PageRequest -> int, levels: seq<string>, finalTitle: string,
                     finalUrl: string, parentId: int, options: PageOptions): (r: Ensured)
    ensures r.pages.cache == p.cache
    ensures !ShouldCreateFinal(levels, finalTitle) ==> r == Ensured(parentId, p)
  {
    if ShouldCreateFinal(levels, finalTitle) then
      var request := PageRequest(finalTitle, finalUrl, parentId, FinalHierarchy(levels, finalTitle), options);
      var id := create(request);
      Ensured(if id != 0 then id else parentId, Pages(p.cache, p.requests + [request]))
    else Ensured(parentId, p)
  }

  lemma PathKeyStep(names: seq<string>, i: nat)
    requires i < |names|
    ensures PathKey(names[..i + 1])
         == if PathKey(names[..i]) == [] then names[i] else PathKey(names[..i]) + " > " + names[i]
  {
    assert names[..i + 1][..i] == names[..i];
  }

  /** The plan's key for level `i` extends the path through the levels before it. */
  lemma PlanKey(levels: seq<string>, i: nat)
    requires i < |levels|
    ensures Names(levels)[i] == PageProcessor.NormalizePageNameAsWritten(levels[i])
    ensures var path := PathKey(Names(levels)[..i]);
      Plan(levels)[i].key == if path == [] then Names(levels)[i] else path + " > " + Names(levels)[i]
  {
    PathKeyStep(Names(levels), i);
  }

  /** Level `i` of the plan is ensured with its normalised name and its sub-hierarchy. */
  lemma PlanLevel(levels: seq<string>, i: nat)
    requires i < |levels|
    ensures Plan(levels)[i].title == Names(levels)[i]
    ensures Plan(levels)[i].hierarchy == levels[..FirstIndex(levels, levels[i]) + 1]
  {
  }

  /** With no blank name, the path is the names joined by `" > "`. */
  lemma {:induction false} PathKeyJoin(names: seq<string>)
    requires forall i :: 0 <= i < |names| ==> names[i] != []
    ensures PathKey(names) == Join(names, " > ")
  {
    if |names| > 1 {
      var init := names[..|names| - 1];
      PathKeyJoin(init);
      JoinStartsWithFirst(init, " > ");
      JoinSnoc(init, names[|names| - 1], " > ");
      assert init + [names[|names| - 1]] == names;
    }
  }

  /** The cache key of a level of non-blank titles is `" > ".join` of the names down to it. */
  lemma LevelKeyJoin(levels: seq<string>, i: nat)
    requires i < |levels|
    requires forall j :: 0 <= j < |levels| ==> Strip(levels[j]) != []
    ensures LevelKey(levels, i) == Join(Names(levels)[..i + 1], " > ")
  {
    PathKeyJoin(Names(levels)[..i + 1]);
  }

  /** A level met for the first time gets the levels down to itself. */
  lemma SubHierarchyFirst(levels: seq<string>, i: nat)
    requires i < |levels| && levels[i] !in levels[..i]
    ensures SubHierarchy(levels, i) == levels[..i + 1]
  {
  }

  /** A repeated level gets the sub-hierarchy of its first occurrence, shorter than its own prefix. */
  lemma SubHierarchyRepeat(levels: seq<string>, i: nat, j: nat)
    requires j < i < |levels| && levels[j] == levels[i]
    ensures SubHierarchy(levels, i) == SubHierarchy(levels, j)
    ensures |SubHierarchy(levels, i)| <= j + 1
  {
  }

  /** The walk never caches a zero ID. */
  lemma {:induction false} WalkKeepsValid(plan: seq<Level>, request: (Level, int) -> PageRequest, i: nat, parentId: int, p: Pages,
                                          create: PageRequest -> int)
    requires i <= |plan| && ValidCache(p.cache)
    ensures ValidCache(WalkFrom(plan, request, i, parentId, p, create).pages.cache)
    decreases |plan| - i
  {
    if i < |plan| {
      var e := Ensure(p, create, plan[i].key, request(plan[i], parentId));
      if e.id != 0 {
        WalkKeepsValid(plan, request, i + 1, e.id, e.pages, create);
      }
    }
  }

  /** The walk only adds to the cache and to the requests: no entry is overwritten, no request undone. */
  lemma {:induction false} WalkExtends(plan: seq<Level>, request: (Level, int) -> PageRequest, i: nat, parentId: int, p: Pages,
      create: PageRequest -> int)
    requires i <= |plan|
    ensures var w := WalkFrom(plan, request, i, parentId, p, create);
      && (forall k :: k in p.cache ==> k in w.pages.cache && w.pages.cache[k] == p.cache[k])
      && |p.requests| <= |w.pages.requests| && w.pages.requests[..|p.requests|] == p.requests
    decreases |plan| - i
  {
    if i < |plan| {
      var e := Ensure(p, create, plan[i].key, request(plan[i], parentId));
      if e.id != 0 {
        WalkExtends(plan, request, i + 1, e.id, e.pages, create);
        var w := WalkFrom(plan, request, i + 1, e.id, e.pages, create);
        assert w.pages.requests[..|e.pages.requests|][..|p.requests|] == w.pages.requests[..|p.requests|];
      }
    }
  }

  /**
   * A walk that gets through every level leaves each level's key cached, and the last level's
   * cached ID is the page it ends under.
   */
  lemma {:induction false} WalkCachesAll(plan: seq<Level>, request: (Level, int) -> PageRequest, i: nat, parentId: int, p: Pages,
      create: PageRequest -> int)
    requires i <= |plan|
    ensures var w := WalkFrom(plan, request, i, parentId, p, create);
      !w.failed ==> forall j :: i <= j < |plan| ==> plan[j].key in w.pages.cache
    ensures var w := WalkFrom(plan, request, i, parentId, p, create);
      !w.failed ==> w.parentId == if i < |plan| then w.pages.cache[plan[|plan| - 1].key] else parentId
    decreases |plan| - i
  {
    if i < |plan| {
      var e := Ensure(p, create, plan[i].key, request(plan[i], parentId));
      if e.id != 0 {
        WalkCachesAll(plan, request, i + 1, e.id, e.pages, create);
        WalkExtends(plan, request, i + 1, e.id, e.pages, create);
        assert plan[i].key in e.pages.cache && e.pages.cache[plan[i].key] == e.id;
      }
    }
  }

  /** Once every level's key is cached, the walk sends no request and ends under the last level's cached page. */
  lemma {:induction false} WalkFromCache(plan: seq<Level>, request: (Level, int) -> PageRequest, i: nat, parentId: int, p: Pages,
      create: PageRequest -> int)
    requires i <= |plan| && ValidCache(p.cache)
    requires forall j :: i <= j < |plan| ==> plan[j].key in p.cache
    ensures var w := WalkFrom(plan, request, i, parentId, p, create);
      && !w.failed && w.pages == p
      && w.parentId == if i < |plan| then p.cache[plan[|plan| - 1].key] else parentId
    decreases |plan| - i
  {
    if i < |plan| {
      WalkFromCache(plan, request, i + 1, p.cache[plan[i].key], p, create);
    }
  }

  /**
   * Walking the same levels a second time is answered from the page cache: no request is sent,
   * the cache is unchanged, and the walk ends under the same page.
   */
  lemma WalkTwice(plan: seq<Level>, request: (Level, int) -> PageRequest, p: Pages, create: PageRequest -> int)
    requires ValidCache(p.cache)
    ensures var w := WalkFrom(plan, request, 0, 0, p, create);
      !w.failed ==> WalkFrom(plan, request, 0, 0, w.pages, create) == w
  {
    var w := WalkFrom(plan, request, 0, 0, p, create);
    WalkCachesAll(plan, request, 0, 0, p, create);
    WalkKeepsValid(plan, request, 0, 0, p, create);
    if !w.failed {
      WalkFromCache(plan, request, 0, 0, w.pages, create);
    }
  }

  /** A second `create_hierarchy` walk down the same levels is answered from the page cache. */
  lemma LevelsTwice(levels: seq<string>, p: Pages, create: PageRequest -> int, options: PageOptions)
    requires ValidCache(p.cache)
    ensures var w := WalkLevels(levels, p, create, options);
      !w.failed ==> WalkLevels(levels, w.pages, create, options) == w
  {
    WalkTwice(Plan(levels), LevelRequests(options), p, create);
  }

  /** The object holding the page cache, with the requests it has sent. */
  class PageCreatorState {
    var pageCache: map<string, int>
    var requests: seq<PageRequest>

    ghost predicate Valid()
      reads this
    {
      ValidCache(pageCache)
    }

    constructor ()
      ensures Valid() && pageCache == map[] && requests == []
    {
      pageCache := map[];
      requests := [];
    }

    /** The pages state this object holds. */
    function State(): Pages
      reads this
    {
      Pages(pageCache, requests)
    }

    /** `create_page(…)`: requests the page and returns its ID, `0` on failure; the cache is not touched. */
    method CreatePage(create: PageRequest -> int, title: string, friendlyUrl: string, parentId: int,
                      hierarchy: seq<string>, options: PageOptions) returns (id: int)
      requires Valid()
      modifies this`requests
      ensures Valid()
      ensures requests == old(requests) + [PageRequest(title, friendlyUrl, parentId, hierarchy, options)]
      ensures id == create(PageRequest(title, friendlyUrl, parentId, hierarchy, options))
    {
      var request := PageRequest(title, friendlyUrl, parentId, hierarchy, options);
      id := create(request);
      requests := requests + [request];
    }

    /** The miss path of `ensure_page_exists`: create the page, and cache its ID when it is non-zero. */
    method CreateAndCache(create: PageRequest -> int, title: string, cacheKey: string, parentId: int,
                          url: string, hierarchy: seq<string>, options: PageOptions) returns (id: int)
      requires Valid()
      requires cacheKey !in pageCache
      modifies this
      ensures Valid()
      ensures Ensured(id, State()) == Ensure(old(State()), create, cacheKey, PageRequest(title, url, parentId, hierarchy, options))
    {
      id := CreatePage(create, title, url, parentId, hierarchy, options);
      if id != 0 {
        CacheStore(pageCache, cacheKey, id);
        pageCache := pageCache[cacheKey := id];
      }
    }

    /** `ensure_page_exists(…)`: the cached ID on a hit, otherwise a new page, cached when it was created. */
    method EnsurePageExists(create: PageRequest -> int, title: string, cacheKey: string, parentId: int,
                            friendlyUrl: string, hierarchy: seq<string>, options: PageOptions) returns (id: int)
      requires Valid()
      modifies this
      ensures Valid()
      ensures Ensured(id, State())
           == Ensure(old(State()), create, cacheKey, EnsureRequest(title, friendlyUrl, parentId, hierarchy, options))
    {
      if cacheKey in pageCache {
        id := pageCache[cacheKey];
        return;
      }
      var url := friendlyUrl;
      if url == [] {
        url := PageProcessor.NormalizeFriendlyUrl(title);
      }
      id := CreateAndCache(create, title, cacheKey, parentId, url, hierarchy, options);
    }

    /** One pass of the `create_hierarchy` loop: extend the path by the level's name and ensure the page. */
    method EnsureLevel(create: PageRequest -> int, levels: seq<string>, i: nat, path: string, parentId: int,
                       options: PageOptions) returns (id: int, key: string)
      requires Valid()
      requires i < |levels| && path == PathKey(Names(levels)[..i])
      modifies this
      ensures Valid()
      ensures key == Plan(levels)[i].key && key == PathKey(Names(levels)[..i + 1])
      ensures Ensured(id, State()) == Ensure(old(State()), create, Plan(levels)[i].key, LevelRequest(Plan(levels)[i], parentId, options))
    {
      var name := PageProcessor.NormalizePageNameAsWritten(levels[i]);
      key := if path == [] then name else path + " > " + name;
      var sub := levels[..FirstIndex(levels, levels[i]) + 1];
      PlanKey(levels, i);
      PlanLevel(levels, i);
      id := EnsurePageExists(create, name, key, parentId, "", sub, options);
    }

    /** The final page of `create_hierarchy`, once every level exists under `parentId`. */
    method CreateFinalPage(create: PageRequest -> int, levels: seq<string>, finalTitle: string, finalUrl: string,
                           parentId: int, options: PageOptions) returns (id: int)
      requires Valid()
      modifies this
      ensures Valid()
      ensures Ensured(id, State()) == FinalPage(old(State()), create, levels, finalTitle, finalUrl, parentId, options)
    {
      id := parentId;
      if ShouldCreateFinal(levels, finalTitle) {
        var finalHierarchy := levels;
        if finalTitle !in finalHierarchy {
          finalHierarchy := finalHierarchy + [finalTitle];
        }
        var finalPageId := CreatePage(create, finalTitle, finalUrl, parentId, finalHierarchy, options);
        if finalPageId != 0 {
          id := finalPageId;
        }
      }
    }

    /** `create_hierarchy(hierarchy, final_title, final_url, …)`. */
    method CreateHierarchy(create: PageRequest -> int, hierarchy: seq<string>, finalTitle: string, finalUrl: string,
                           options: PageOptions) returns (id: int)
      requires Valid()
      modifies this
      ensures Valid()
      ensures Ensured(id, State()) == Hierarchy(old(State()), create, hierarchy, finalTitle, finalUrl, options)
    {
      var levels := WithoutRoot(hierarchy);
      ghost var plan := Plan(levels);
      var path := "";
      var parentId := 0;
      var lastPageId := 0;
      for i := 0 to |levels|
        invariant Valid()
        invariant path == PathKey(Names(levels)[..i])
        invariant lastPageId == parentId
        invariant WalkFrom(plan, LevelRequests(options), i, parentId, State(), create) == WalkLevels(levels, old(State()), create, options)
      {
        var levelId;
        levelId, path := EnsureLevel(create, levels, i, path, parentId, options);
        if levelId != 0 {
          parentId := levelId;
          lastPageId := levelId;
        } else {
          return 0;
        }
      }
      lastPageId := CreateFinalPage(create, levels, finalTitle, finalUrl, parentId, options);
      id := lastPageId;
    }
  }
}
