/**
 * The pure helpers of the content updater: making a same-site link relative, splitting
 * the spreadsheet's category cell, mapping category names to IDs and extracting an
 * article ID from the shapes the creators return. Its retry policy is `Retry` with the
 * `Linear` schedule, and its portlet code is `JournalPortlets`.
 */
module ContentUpdate {
  import opened Wrappers
  import opened PyStr
  import opened UrlParse
  import opened PyValues

  // ---------------------------------------------------------------- _clean_url

  /** The link kinds returned untouched. */
  predicate SpecialLink(u: string)
  {
    StartsWith(u, "mailto:") || StartsWith(u, "tel:") || StartsWith(u, "javascript:") || StartsWith(u, "#")
  }

  predicate IsHttpUrl(u: string) { StartsWith(u, "http://") || StartsWith(u, "https://") }

  /** The base domain without `https://` and then without `http://`, anywhere in it. */
  function BareDomain(baseDomain: string): string
  {
    Replace(Replace(baseDomain, "https://", []), "http://", [])
  }

  /** The same-domain test: `scheme://netloc` is the base, or the netloc is the bare base. */
  predicate SameDomain(scheme: string, netloc: string, baseDomain: string)
  {
    scheme + "://" + netloc == baseDomain || netloc == BareDomain(baseDomain)
  }

  /** `path` followed by `?query` when the query is not empty. */
  function Relative(path: string, query: string): string
  {
    if query != [] then path + "?" + query else path
  }

  /**
   * `_clean_url`: the URL without its fragment; for an `http(s)` URL of the base domain,
   * its path and query only. A `ValueError` from `urlparse` ends in the except branch,
   * which returns the URL without its fragment as well.
   */
  function CleanUrl(url: string, baseDomain: string): string
  {
    CleanRest(Split(url, '#')[0], baseDomain)
  }

  /** The steps of `_clean_url` after the fragment is gone. */
  function CleanRest(u: string, baseDomain: string): string
  {
    if u == [] || SpecialLink(u) then u
    else if !IsHttpUrl(u) then u
    else match Parse(u)
      case None => u
      case Some(p) => if SameDomain(p.scheme, p.netloc, baseDomain) then Relative(p.path, p.query) else u
  }

  /** The fragment is dropped first: the rest of the cleaning sees the URL without it. */
  lemma CleanUrlDropsFragment(u: string, fragment: string, baseDomain: string)
    requires '#' !in u
    ensures CleanUrl(u + "#" + fragment, baseDomain) == CleanUrl(u, baseDomain)
  {
    SplitAfterField(u, fragment, '#');
    SplitNoSep(u, '#');
  }

  /** Without a fragment, the cleaning is that of the remaining steps. */
  lemma CleanUrlNoFragment(u: string, baseDomain: string)
    requires '#' !in u
    ensures CleanUrl(u, baseDomain) == CleanRest(u, baseDomain)
  {
    SplitNoSep(u, '#');
  }

  /** An `http(s)` URL of host and path holds no `#`. */
  lemma HostUrlNoHash(scheme: string, host: string, rest: string)
    requires IsHostUrl(scheme, host, rest) && '#' !in rest
    ensures '#' !in scheme + "://" + host + rest
  {
    assert '#' !in scheme;
    assert '#' !in host;
  }

  /** Empty, `mailto:`, `tel:`, `javascript:` and relative links are returned as they are. */
  lemma CleanUrlKeepsNonHttp(u: string, baseDomain: string)
    requires '#' !in u && !IsHttpUrl(u)
    ensures CleanUrl(u, baseDomain) == u
  {
    SplitNoSep(u, '#');
  }

  /** The scheme-and-host prefix of an `http(s)` URL rules out the skipped link kinds. */
  lemma HttpPrefix(scheme: string, host: string, rest: string)
    requires scheme == "http" || scheme == "https"
    ensures var u := scheme + "://" + host + rest; IsHttpUrl(u) && !SpecialLink(u) && u != []
  {
    var u := scheme + "://" + host + rest;
    assert u == scheme + ("://" + host + rest);
    assert u[0] == 'h';
    if scheme == "http" {
      assert u[..7] == "http://";
    } else {
      assert u[..8] == "https://";
    }
  }

  /** A link to the base domain becomes its path and `?query`. */
  lemma CleanUrlSameDomain(scheme: string, host: string, path: string, query: string, rest: string, baseDomain: string)
    requires rest == path + "?" + query || (rest == path && query == [])
    requires IsHostUrl(scheme, host, rest)
    requires '?' !in path && ';' !in path && '#' !in path && '#' !in query
    requires SameDomain(scheme, host, baseDomain)
    ensures CleanUrl(scheme + "://" + host + rest, baseDomain) == Relative(path, query)
  {
    var u := scheme + "://" + host + rest;
    ParsePathQuery(scheme, host, path, query, rest);
    HttpPrefix(scheme, host, rest);
    assert CleanRest(u, baseDomain) == Relative(path, query);
    HostUrlNoHash(scheme, host, rest);
    CleanUrlNoFragment(u, baseDomain);
  }

  /** A link to another domain is kept whole. */
  lemma CleanUrlOtherDomain(scheme: string, host: string, path: string, query: string, rest: string, baseDomain: string)
    requires rest == path + "?" + query || (rest == path && query == [])
    requires IsHostUrl(scheme, host, rest)
    requires '?' !in path && ';' !in path && '#' !in path && '#' !in query
    requires !SameDomain(scheme, host, baseDomain)
    ensures CleanUrl(scheme + "://" + host + rest, baseDomain) == scheme + "://" + host + rest
  {
    var u := scheme + "://" + host + rest;
    ParsePathQuery(scheme, host, path, query, rest);
    HttpPrefix(scheme, host, rest);
    assert CleanRest(u, baseDomain) == u;
    HostUrlNoHash(scheme, host, rest);
    CleanUrlNoFragment(u, baseDomain);
  }

  // ---------------------------------------------------------------- _process_categories

  /** One comma-separated part, trimmed and without one leading `- `. */
  function CleanCategory(part: string): string
  {
    var c := Strip(part);
    if StartsWith(c, "- ") then Strip(c[2..]) else c
  }

  /** The non-empty cleaned parts, in order. */
  function CategoryList(parts: seq<string>): (r: seq<string>)
    ensures |r| <= |parts|
  {
    if parts == [] then []
    else
      var c := CleanCategory(parts[0]);
      (if c != [] then [c] else []) + CategoryList(parts[1..])
  }

  /** `_process_categories`: nothing for an empty cell or a lone `-`. */
  function Categories(category: string): seq<string>
  {
    if category == [] || Strip(category) == "-" then [] else CategoryList(Split(category, ','))
  }

  /** `_process_categories`. */
  method ProcessCategories(category: string) returns (categories: seq<string>)
    ensures categories == Categories(category)
  {
    if category == [] || Strip(category) == "-" {
      return [];
    }
    categories := CleanParts(Split(category, ','));
  }

  /** The loop of `_process_categories` over the comma-separated parts. */
  method CleanParts(parts: seq<string>) returns (categories: seq<string>)
    ensures categories == CategoryList(parts)
  {
    categories := [];
    for i := 0 to |parts|
      invariant categories == CategoryList(parts[..i])
    {
      var cat := CleanCategory(parts[i]);
      CategoryListSnoc(parts, i);
      if cat != [] {
        categories := categories + [cat];
      }
    }
    assert parts[..|parts|] == parts;
  }

  /** One more part adds its cleaned form at the end, when it is not empty. */
  lemma CategoryListSnoc(parts: seq<string>, i: nat)
    requires i < |parts|
    ensures var c := CleanCategory(parts[i]);
      CategoryList(parts[..i + 1]) == CategoryList(parts[..i]) + (if c != [] then [c] else [])
  {
    assert parts[..i + 1] == parts[..i] + [parts[i]];
    CategoryListAppend(parts[..i], [parts[i]]);
    assert [parts[i]][1..] == [];
  }

  /** The cleaning keeps the relative order of the parts. */
  lemma {:induction false} CategoryListAppend(a: seq<string>, b: seq<string>)
    ensures CategoryList(a + b) == CategoryList(a) + CategoryList(b)
    decreases |a|
  {
    if a == [] {
      assert a + b == b;
    } else {
      assert (a + b)[0] == a[0];
      assert (a + b)[1..] == a[1..] + b;
      CategoryListAppend(a[1..], b);
      var c := CleanCategory(a[0]);
      var h := if c != [] then [c] else [];
      assert CategoryList(a + b) == h + CategoryList(a[1..] + b);
      assert h + (CategoryList(a[1..]) + CategoryList(b)) == (h + CategoryList(a[1..])) + CategoryList(b);
    }
  }

  /** A category as the cleaning leaves it: non-empty, trimmed, and without a comma. */
  predicate CleanName(w: string)
  {
    w != [] && w[0] !in Whitespace && w[|w| - 1] !in Whitespace && ',' !in w
  }

  lemma CleanCategoryIsClean(part: string)
    requires ',' !in part
    ensures CleanCategory(part) != [] ==> CleanName(CleanCategory(part))
  {
    var c := Strip(part);
    StripSubset(part, Whitespace, ',');
    StripEnds(part, Whitespace);
    if StartsWith(c, "- ") {
      assert forall i :: 0 <= i < |c[2..]| ==> c[2..][i] == c[i + 2];
      StripSubset(c[2..], Whitespace, ',');
      StripEnds(c[2..], Whitespace);
    }
  }

  lemma {:induction false} CategoryListClean(parts: seq<string>)
    requires forall i :: 0 <= i < |parts| ==> ',' !in parts[i]
    ensures forall i :: 0 <= i < |CategoryList(parts)| ==> CleanName(CategoryList(parts)[i])
    decreases |parts|
  {
    if parts != [] {
      CleanCategoryIsClean(parts[0]);
      CategoryListClean(parts[1..]);
    }
  }

  /** Every category returned is non-empty, trimmed and comma-free, and there are at most as many as parts. */
  lemma CategoriesWellFormed(category: string)
    ensures forall i :: 0 <= i < |Categories(category)| ==> CleanName(Categories(category)[i])
    ensures |Categories(category)| <= Count(category, ',') + 1
  {
    SplitCount(category, ',');
    CategoryListClean(Split(category, ','));
  }

  /** A clean name that does not start with `- ` comes through the cleaning unchanged. */
  lemma {:induction false} CategoryListIdentity(ws: seq<string>)
    requires forall i :: 0 <= i < |ws| ==> CleanName(ws[i]) && !StartsWith(ws[i], "- ")
    ensures CategoryList(ws) == ws
    decreases |ws|
  {
    if ws != [] {
      StripUnchanged(ws[0], Whitespace);
      CategoryListIdentity(ws[1..]);
    }
  }

  /** `"a,b".split(",")` undoes the join when no part holds a comma. */
  lemma {:induction false} SplitJoinParts(ws: seq<string>)
    requires ws != []
    requires forall i :: 0 <= i < |ws| ==> ',' !in ws[i]
    ensures Split(Join(ws, ","), ',') == ws
    decreases |ws|
  {
    if |ws| == 1 {
      SplitNoSep(ws[0], ',');
    } else {
      SplitJoinParts(ws[1..]);
      SplitAfterField(ws[0], Join(ws[1..], ","), ',');
      assert [ws[0]] + ws[1..] == ws;
    }
  }

  /** A comma join of non-empty parts starts with the first part, ends with the last and holds a comma between two. */
  lemma {:induction false} JoinEnds(ws: seq<string>)
    requires ws != [] && forall i :: 0 <= i < |ws| ==> ws[i] != []
    ensures var j := Join(ws, ",");
      j != [] && j[0] == ws[0][0] && j[|j| - 1] == ws[|ws| - 1][|ws[|ws| - 1]| - 1]
    ensures |ws| > 1 ==> ',' in Join(ws, ",")
    decreases |ws|
  {
    if |ws| > 1 {
      var rest := Join(ws[1..], ",");
      JoinEnds(ws[1..]);
      var j := Join(ws, ",");
      assert j == ws[0] + "," + rest;
      assert j[|ws[0]|] == ',';
    }
  }

  /** The comma join of clean names other than the lone `-` is a cell that the first test lets through. */
  lemma JoinNotDash(ws: seq<string>)
    requires ws != [] && forall i :: 0 <= i < |ws| ==> CleanName(ws[i])
    requires ws != ["-"]
    ensures var j := Join(ws, ","); j != [] && Strip(j) != "-"
  {
    var j := Join(ws, ",");
    JoinEnds(ws);
    StripUnchanged(j, Whitespace);
    if |ws| == 1 {
      assert j == ws[0];
    }
  }

  /**
   * Joining clean category names with commas and processing the cell gives the names back,
   * except for the lone name `-`, which the cell test reads as "no categories".
   */
  lemma CategoriesRoundTrip(ws: seq<string>)
    requires forall i :: 0 <= i < |ws| ==> CleanName(ws[i]) && !StartsWith(ws[i], "- ")
    requires ws != ["-"]
    ensures Categories(Join(ws, ",")) == ws
  {
    if ws != [] {
      var j := Join(ws, ",");
      JoinNotDash(ws);
      SplitJoinParts(ws);
      CategoryListIdentity(ws);
      assert Categories(j) == CategoryList(Split(j, ','));
    }
  }

  /** An empty cell, a lone `-` or one of only separators and spaces yields no categories. */
  lemma CategoriesOfDash(category: string)
    requires category == [] || Strip(category) == "-"
    ensures Categories(category) == []
  {
  }

  // ---------------------------------------------------------------- _get_category_ids

  /** The IDs of the mapped categories, in order; unmapped names are skipped. */
  function MappedIds(categories: seq<string>, mapping: map<string, int>): (r: seq<int>)
    ensures |r| <= |categories|
    ensures forall i :: 0 <= i < |r| ==> r[i] in mapping.Values
  {
    if categories == [] then []
    else (if categories[0] in mapping then [mapping[categories[0]]] else []) + MappedIds(categories[1..], mapping)
  }

  /** `_get_category_ids`, with its loop; the title only labels a warning. */
  method GetCategoryIds(categories: seq<string>, mapping: map<string, int>) returns (ids: seq<int>)
    ensures ids == MappedIds(categories, mapping)
  {
    ids := [];
    for i := 0 to |categories|
      invariant ids + MappedIds(categories[i..], mapping) == MappedIds(categories, mapping)
    {
      assert categories[i..][1..] == categories[i + 1..];
      if categories[i] in mapping {
        ids := ids + [mapping[categories[i]]];
      }
    }
    assert categories[|categories|..] == [];
  }

  /** The IDs keep the order of the names. */
  lemma {:induction false} MappedIdsAppend(a: seq<string>, b: seq<string>, mapping: map<string, int>)
    ensures MappedIds(a + b, mapping) == MappedIds(a, mapping) + MappedIds(b, mapping)
    decreases |a|
  {
    if a == [] {
      assert a + b == b;
    } else {
      assert (a + b)[0] == a[0];
      assert (a + b)[1..] == a[1..] + b;
      MappedIdsAppend(a[1..], b, mapping);
      var h := if a[0] in mapping then [mapping[a[0]]] else [];
      assert MappedIds(a + b, mapping) == h + MappedIds(a[1..] + b, mapping);
    }
  }

  /** When every name is mapped there is one ID per name, position by position. */
  lemma {:induction false} MappedIdsAllKnown(categories: seq<string>, mapping: map<string, int>)
    requires forall i :: 0 <= i < |categories| ==> categories[i] in mapping
    ensures |MappedIds(categories, mapping)| == |categories|
    ensures forall i :: 0 <= i < |categories| ==> MappedIds(categories, mapping)[i] == mapping[categories[i]]
    decreases |categories|
  {
    if categories != [] {
      MappedIdsAllKnown(categories[1..], mapping);
    }
  }

  /** Names missing from the mapping contribute nothing. */
  lemma {:induction false} MappedIdsUnknown(categories: seq<string>, mapping: map<string, int>)
    requires forall i :: 0 <= i < |categories| ==> categories[i] !in mapping
    ensures MappedIds(categories, mapping) == []
    decreases |categories|
  {
    if categories != [] {
      MappedIdsUnknown(categories[1..], mapping);
    }
  }

  // ---------------------------------------------------------------- _extract_article_id

  /** The nested shape `{'id': {'id': x, ...}, ...}`. */
  predicate NestedId(v: PyValue)
  {
    v.Dict? && "id" in v.entries && v.entries["id"].Dict? && "id" in v.entries["id"].entries
  }

  /**
   * `_extract_article_id`: the inner `id` of the nested shape, the `id` of a dictionary, or
   * `str()` of a string or integer (a boolean counts as an integer); `None` when what was
   * extracted is falsy.
   */
  function ExtractArticleId(contentId: PyValue): (r: Option<PyValue>)
    ensures r.Some? ==> Truthy(r.value)
    ensures NestedId(contentId) ==>
      r == (if Truthy(contentId.entries["id"].entries["id"]) then Some(contentId.entries["id"].entries["id"]) else None)
    ensures !NestedId(contentId) && contentId.Dict? && "id" in contentId.entries ==>
      r == (if Truthy(contentId.entries["id"]) then Some(contentId.entries["id"]) else None)
    ensures contentId.Str? ==> (r.Some? <==> contentId.s != []) && (r.Some? ==> r.value == contentId)
    ensures contentId.List? || contentId.NoneValue? || (contentId.Dict? && "id" !in contentId.entries) ==> r.None?
  {
    var v :=
      if NestedId(contentId) then contentId.entries["id"].entries["id"]
      else if contentId.Dict? && "id" in contentId.entries then contentId.entries["id"]
      else if contentId.Str? || contentId.Int? || contentId.Bool? then Str(ScalarText(contentId))
      else NoneValue;
    if Truthy(v) then Some(v) else None
  }

  /** An integer ID always yields its decimal text, `0` included. */
  lemma ExtractIntegerId(n: int)
    ensures ExtractArticleId(Int(n)) == Some(Str(IntToString(n)))
  {
    IntTextTruthy(n);
  }

  /** The nested shape yields the inner value itself, not its text. */
  lemma ExtractNestedId(n: int, key: string)
    requires n != 0
    ensures ExtractArticleId(Dict(map["id" := Dict(map["id" := Int(n), "key" := Str(key)]), "key" := Str(key)]))
         == Some(Int(n))
  {
  }

  /** What one extraction yields, extracted again, gives the same text: the result is already an ID. */
  lemma ExtractAgain(contentId: PyValue)
    requires ExtractArticleId(contentId).Some?
    requires ExtractArticleId(contentId).value.Str? || ExtractArticleId(contentId).value.Int?
    ensures var v := ExtractArticleId(contentId).value;
      ExtractArticleId(v) == Some(Str(ScalarText(v)))
  {
    var v := ExtractArticleId(contentId).value;
    if v.Int? { IntTextTruthy(v.i); }
  }
}
