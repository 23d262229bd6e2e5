// The comparison rules of the validator that checks a migrated page against its
// original: how texts, collapsible titles and menu URLs are normalised, how menus and
// collapsible sections are compared, and how validation errors are recorded and routed
// to log files.  Fetching the pages and reading them with an HTML parser are not modelled:
// the comparisons take the links and sections the parser would extract.

module ContentValidator {
  import opened Wrappers
  import opened PyStr
  import opened UrlParse

  // ---------------------------------------------------------------- characters

  const Nbsp: char := '\U{00A0}'
  const ZeroWidth: char := '\U{200B}'

  /** Every character of `s` satisfies `p`. */
  predicate All(s: string, p: char -> bool)
  {
    forall i :: 0 <= i < |s| ==> p(s[i])
  }

  /** `s` is its own lowercase. */
  predicate IsLowered(s: string)
  {
    forall i :: 0 <= i < |s| ==> LowerChar(s[i]) == s[i]
  }

  /** No leading or trailing whitespace. */
  predicate Trimmed(s: string)
  {
    s != [] ==> s[0] !in Whitespace && s[|s| - 1] !in Whitespace
  }

  lemma LowerCharIdempotent(c: char)
    ensures LowerChar(LowerChar(c)) == LowerChar(c)
  {
  }

  /** `strip()` keeps a slice of its input. */
  lemma StripSlice(s: string)
    ensures var k := |s| - |LStrip(s, Whitespace)|;
            k + |Strip(s)| <= |s| && Strip(s) == s[k..k + |Strip(s)|]
  {
  }

  lemma AllStrip(s: string, p: char -> bool)
    requires All(s, p)
    ensures All(Strip(s), p) && Trimmed(Strip(s))
  {
    StripSlice(s);
    var k := |s| - |LStrip(s, Whitespace)|;
    AllSlice(s, k, k + |Strip(s)|, p);
    StripEnds(s, Whitespace);
  }

  lemma AllSlice(s: string, i: nat, j: nat, p: char -> bool)
    requires All(s, p) && i <= j <= |s|
    ensures All(s[i..j], p)
  {
    forall t | 0 <= t < j - i ensures p(s[i..j][t]) {
      assert s[i..j][t] == s[i + t];
    }
  }

  lemma AllReplace(s: string, pat: string, sub: string, p: char -> bool)
    requires All(s, p) && All(sub, p)
    ensures All(Replace(s, pat, sub), p)
  {
    var r := Replace(s, pat, sub);
    forall i | 0 <= i < |r| ensures p(r[i]) {
      ReplaceChars(s, pat, sub, r[i]);
    }
  }

  lemma LoweredLower(s: string)
    ensures IsLowered(Lower(s))
  {
    forall i | 0 <= i < |s| ensures LowerChar(Lower(s)[i]) == Lower(s)[i] {
      LowerCharIdempotent(s[i]);
    }
  }

  lemma LoweredStrip(s: string)
    requires IsLowered(s)
    ensures IsLowered(Strip(s))
  {
    AllStrip(s, (c: char) => LowerChar(c) == c);
  }

  // ---------------------------------------------------------------- _normalize_text

  /**
   * The spacing steps shared by texts and titles: runs of whitespace become one space and
   * the ends are dropped, then non-breaking spaces become spaces, zero-width spaces go
   * and tabs become spaces.
   */
  function Respace(s: string): string
  {
    Replace(Replace(Replace(Join(SplitWs(s), " "), [Nbsp], " "), [ZeroWidth], ""), "\t", " ")
  }

  predicate NotSpecial(c: char) { c != Nbsp && c != ZeroWidth && c != '\t' }

  lemma RespaceNoSpecials(s: string)
    ensures All(Respace(s), NotSpecial)
  {
    var j := Join(SplitWs(s), " ");
    var a := Replace(j, [Nbsp], " ");
    var b := Replace(a, [ZeroWidth], "");
    var c := Replace(b, "\t", " ");
    ReplaceRemoves(j, Nbsp, " ");
    ReplaceRemoves(a, ZeroWidth, "");
    ReplaceRemoves(b, '\t', " ");
    forall i | 0 <= i < |c| ensures NotSpecial(c[i]) {
      ReplaceChars(b, "\t", " ", c[i]);
      ReplaceChars(a, [ZeroWidth], "", c[i]);
    }
  }

  /** `_normalize_text`: spacing normalised, lowercase, trimmed. */
  function NormalizeText(text: string): (r: string)
    ensures IsLowered(r) && Trimmed(r) && All(r, NotSpecial)
  {
    var s := Respace(text);
    RespaceNoSpecials(text);
    LoweredLower(s);
    assert All(Lower(s), NotSpecial);
    AllStrip(Lower(s), NotSpecial);
    LoweredStrip(Lower(s));
    Strip(Lower(s))
  }

  /** Words that are lowercase and hold no zero-width space. */
  predicate PlainWords(ws: seq<string>)
  {
    forall i :: 0 <= i < |ws| ==> IsWord(ws[i]) && IsLowered(ws[i]) && ZeroWidth !in ws[i]
  }

  /** A lowercase text of single-spaced words without special spaces is already normal. */
  lemma NormalizeTextFixpoint(ws: seq<string>)
    requires PlainWords(ws)
    ensures NormalizeText(Join(ws, " ")) == Join(ws, " ")
  {
    RespaceWords(ws);
    JoinedWords(ws);
    NormalizeTextUnchanged(Join(ws, " "));
  }

  /** A lowercase, trimmed text that respacing leaves alone is its own normal form. */
  lemma NormalizeTextUnchanged(s: string)
    requires Respace(s) == s && IsLowered(s)
    requires s != [] ==> s[0] !in Whitespace && s[|s| - 1] !in Whitespace
    ensures NormalizeText(s) == s
  {
    LowerUnchanged(s);
    StripUnchanged(s, Whitespace);
  }

  lemma RespaceWords(ws: seq<string>)
    requires PlainWords(ws)
    ensures Respace(Join(ws, " ")) == Join(ws, " ")
  {
    var s := Join(ws, " ");
    SplitJoinWords(ws);
    JoinedWords(ws);
    ReplaceLacking(s, Nbsp, " ");
    ReplaceLacking(s, ZeroWidth, "");
    ReplaceLacking(s, '\t', " ");
  }

  /** Replacing a character the text lacks changes nothing. */
  lemma ReplaceLacking(s: string, c: char, sub: string)
    requires c !in s
    ensures Replace(s, [c], sub) == s
  {
    ContainsLacking(s, [c], c);
    ReplaceAbsent(s, [c], sub);
  }

  /** What a space-joined list of such words holds: no special space, lowercase, and words at both ends. */
  lemma {:induction false} JoinedWords(ws: seq<string>)
    requires PlainWords(ws)
    ensures var s := Join(ws, " ");
            Nbsp !in s && ZeroWidth !in s && '\t' !in s && IsLowered(s)
            && (s != [] ==> s[0] !in Whitespace && s[|s| - 1] !in Whitespace)
  {
    if |ws| > 1 {
      JoinedWords(ws[1..]);
      var t := Join(ws[1..], " ");
      assert Join(ws, " ") == ws[0] + " " + t;
      assert Nbsp in Whitespace && '\t' in Whitespace;
      var s := Join(ws, " ");
      forall i | 0 <= i < |s| ensures LowerChar(s[i]) == s[i] {
        if i < |ws[0]| {
          assert s[i] == ws[0][i];
        } else if i > |ws[0]| {
          assert s[i] == t[i - |ws[0]| - 1];
        }
      }
    } else if |ws| == 1 {
      assert Nbsp in Whitespace && '\t' in Whitespace;
    }
  }

  lemma LowerUnchanged(s: string)
    requires IsLowered(s)
    ensures Lower(s) == s
  {
  }

  // ---------------------------------------------------------------- _normalize_title

  /** `c.isalnum() or c.isspace()`. */
  predicate TitleChar(c: char) { IsAlnum(c) || c in Whitespace }

  /** The characters kept in a title, in order. */
  function KeepTitleChars(s: string): (r: string)
    ensures All(r, TitleChar)
    ensures All(s, TitleChar) ==> r == s
  {
    if s == [] then []
    else (if TitleChar(s[0]) then [s[0]] else []) + KeepTitleChars(s[1..])
  }

  lemma LowerTitleChars(s: string)
    requires All(s, TitleChar)
    ensures All(Lower(s), TitleChar) && IsLowered(Lower(s))
  {
    forall i | 0 <= i < |s| ensures TitleChar(Lower(s)[i]) {
      CaseKeepsWhitespace(s[i]);
    }
    LoweredLower(s);
  }

  /** The test markers removed from titles, in the order they are removed. */
  const TestMarkers: seq<string> := ["test", "testing", "(test)", "[test]"]

  /** Every marker of `markers` replaced by nothing, one after the other. */
  function RemoveMarkers(s: string, markers: seq<string>): string
    decreases |markers|
  {
    if markers == [] then s else RemoveMarkers(Replace(s, markers[0], ""), markers[1..])
  }

  /** Removing markers brings in no character. */
  lemma {:induction false} RemoveMarkersKeeps(s: string, markers: seq<string>)
    requires All(s, TitleChar) && IsLowered(s)
    ensures All(RemoveMarkers(s, markers), TitleChar) && IsLowered(RemoveMarkers(s, markers))
    decreases |markers|
  {
    if markers != [] {
      AllReplace(s, markers[0], "", TitleChar);
      AllReplace(s, markers[0], "", (c: char) => LowerChar(c) == c);
      RemoveMarkersKeeps(Replace(s, markers[0], ""), markers[1..]);
    }
  }

  /** `_normalize_title`: spacing normalised, only letters, digits and spaces, lowercase, test markers removed, trimmed. */
  function NormalizeTitle(title: string): (r: string)
    ensures All(r, TitleChar) && IsLowered(r) && Trimmed(r)
  {
    var k := KeepTitleChars(Respace(title));
    LowerTitleChars(k);
    var m := RemoveMarkers(Lower(k), TestMarkers);
    RemoveMarkersKeeps(Lower(k), TestMarkers);
    AllStrip(m, TitleChar);
    LoweredStrip(m);
    Strip(m)
  }

  /** Lowercase words of letters and digits only. */
  predicate AlnumWords(ws: seq<string>)
  {
    forall i :: 0 <= i < |ws| ==> IsWord(ws[i]) && IsLowered(ws[i]) && All(ws[i], IsAlnum)
  }

  /** A title already made of lowercase words of letters and digits, without `test`, is kept. */
  lemma NormalizeTitleFixpoint(ws: seq<string>)
    requires AlnumWords(ws)
    requires !Contains(Join(ws, " "), "test") && !Contains(Join(ws, " "), "testing")
    ensures NormalizeTitle(Join(ws, " ")) == Join(ws, " ")
  {
    var s := Join(ws, " ");
    TitlePrepared(ws);
    MarkersAbsent(s);
    TitleUnchanged(s);
  }

  lemma TitleUnchanged(s: string)
    requires Lower(KeepTitleChars(Respace(s))) == s && RemoveMarkers(s, TestMarkers) == s && Trimmed(s)
    ensures NormalizeTitle(s) == s
  {
    StripUnchanged(s, Whitespace);
  }

  lemma TitlePrepared(ws: seq<string>)
    requires AlnumWords(ws)
    ensures var s := Join(ws, " ");
            Lower(KeepTitleChars(Respace(s))) == s && '(' !in s && '[' !in s && Trimmed(s)
  {
    var s := Join(ws, " ");
    AlnumWordsPlain(ws);
    RespaceWords(ws);
    assert Respace(s) == s;
    JoinedTitleChars(ws);
    assert KeepTitleChars(s) == s;
    JoinedWords(ws);
    LowerUnchanged(s);
  }

  lemma AlnumWordsPlain(ws: seq<string>)
    requires forall i :: 0 <= i < |ws| ==> All(ws[i], IsAlnum)
    ensures forall i :: 0 <= i < |ws| ==> ZeroWidth !in ws[i]
  {
    forall i | 0 <= i < |ws| ensures ZeroWidth !in ws[i] {
      assert forall j :: 0 <= j < |ws[i]| ==> IsAlnum(ws[i][j]);
    }
  }

  lemma MarkersAbsent(s: string)
    requires !Contains(s, "test") && !Contains(s, "testing") && '(' !in s && '[' !in s
    ensures RemoveMarkers(s, TestMarkers) == s
  {
    ReplaceAbsent(s, "test", "");
    ReplaceAbsent(s, "testing", "");
    ContainsLacking(s, "(test)", '(');
    ReplaceAbsent(s, "(test)", "");
    ContainsLacking(s, "[test]", '[');
    ReplaceAbsent(s, "[test]", "");
    assert TestMarkers[1..][1..][1..][1..] == [];
  }

  lemma {:induction false} JoinedTitleChars(ws: seq<string>)
    requires forall i :: 0 <= i < |ws| ==> All(ws[i], IsAlnum)
    ensures var s := Join(ws, " "); All(s, TitleChar) && '(' !in s && '[' !in s
  {
    if |ws| > 1 {
      JoinedTitleChars(ws[1..]);
      var t := Join(ws[1..], " ");
      var s := Join(ws, " ");
      assert s == ws[0] + " " + t;
      forall i | 0 <= i < |s| ensures TitleChar(s[i]) && s[i] != '(' && s[i] != '[' {
        if i < |ws[0]| {
          assert s[i] == ws[0][i];
        } else if i > |ws[0]| {
          assert s[i] == t[i - |ws[0]| - 1];
        }
      }
    } else if |ws| == 1 {
      assert forall j :: 0 <= j < |ws[0]| ==> IsAlnum(ws[0][j]);
    }
  }

  // ---------------------------------------------------------------- _normalize_url

  /** Replacing `//` by `/` never lengthens a text, and shortens one that holds `//`. */
  lemma {:induction false} ReplaceSlashesShorter(s: string)
    ensures |Replace(s, "//", "/")| <= |s|
    ensures Contains(s, "//") ==> |Replace(s, "//", "/")| < |s|
    decreases |s|
  {
    if |s| >= 2 {
      if s[..2] == "//" {
        ReplaceSlashesShorter(s[2..]);
      } else {
        ReplaceSlashesShorter(s[1..]);
        assert Contains(s, "//") ==> Contains(s[1..], "//");
      }
    } else if |s| == 1 {
      assert s[1..] == [];
      assert !Contains(s[1..], "//");
    }
  }

  /** The `while '//' in path` loop, as a function: replace until no `//` is left. */
  function CollapseSlashes(path: string): (r: string)
    ensures !Contains(r, "//")
    ensures !Contains(path, "//") ==> r == path
    decreases |path|
  {
    if Contains(path, "//") then
      ReplaceSlashesShorter(path);
      CollapseSlashes(Replace(path, "//", "/"))
    else path
  }

  /** `path.replace('/w/', '/', 1)` on a path that starts with `/w/`. */
  function DropWPrefix(path: string): (r: string)
    ensures StartsWith(path, "/w/") ==> r == "/" + path[3..]
    ensures !StartsWith(path, "/w/") ==> r == path
  {
    if StartsWith(path, "/w/") then "/" + path[3..] else path
  }

  /** The path `_normalize_url` compares; `None` where `urlparse` raises. */
  function NormalizedPath(url: string): Option<string>
  {
    match Parse(RStrip(url, {'/'}))
    case None => None
    case Some(u) => Some(ComparedPath(u.path))
  }

  /** What `_normalize_url` makes of a parsed path. */
  function ComparedPath(path: string): string
  {
    CollapseSlashes(DropWPrefix(path))
  }

  /** A normalised path never holds a doubled slash. */
  lemma NormalizedPathSingleSlashes(url: string)
    ensures NormalizedPath(url).Some? ==> !Contains(NormalizedPath(url).value, "//")
  {
  }

  /** `_normalize_url`. */
  method NormalizeUrl(url: string) returns (r: Option<string>)
    ensures r == NormalizedPath(url)
  {
    var parsed := Parse(RStrip(url, {'/'}));
    if parsed.None? {
      return None;
    }
    var path := ComparePath(parsed.value.path);
    r := Some(path);
  }

  /** The path steps of `_normalize_url`. */
  method ComparePath(start: string) returns (path: string)
    ensures path == ComparedPath(start)
    ensures !Contains(path, "//")
  {
    path := start;
    if StartsWith(path, "/w/") {
      path := "/" + path[3..];
    }
    assert path == DropWPrefix(start);
    path := RemoveDoubleSlashes(path);
  }

  /** The loop of `_normalize_url`: it ends because every round shortens the path. */
  method RemoveDoubleSlashes(start: string) returns (path: string)
    ensures path == CollapseSlashes(start)
  {
    path := start;
    while Contains(path, "//")
      invariant CollapseSlashes(path) == CollapseSlashes(start)
      decreases |path|
    {
      ReplaceSlashesShorter(path);
      path := Replace(path, "//", "/");
    }
  }

  /** Trailing slashes make no difference. */
  lemma TrailingSlashIgnored(url: string)
    ensures NormalizedPath(url + "/") == NormalizedPath(url)
  {
    RStripAppended(url, '/', {'/'});
  }

  /** A path without scheme, authority, parameters, query or fragment parses as that path. */
  lemma ParsePlainPath(p: string)
    requires p != [] && p[0] == '/' && !StartsWith(p, "//") && Safe(p)
    requires ':' !in p && '?' !in p && '#' !in p && ';' !in p
    ensures Parse(p) == Some(Url("", "", p, "", "", ""))
  {
    assert LStrip(p, ControlOrSpace) == p;
    DropUnsafeUnchanged(p);
    assert SplitScheme(p) == ([], p);
  }

  /** An absolute path without scheme, authority, parameters, query, fragment or trailing slash. */
  predicate PlainPath(p: string)
  {
    && p != [] && p[0] == '/' && !StartsWith(p, "//") && Safe(p) && RStrip(p, {'/'}) == p
    && ':' !in p && '?' !in p && '#' !in p && ';' !in p
  }

  /** A plain path without trailing slash normalises through its own path. */
  lemma PlainPathNormalized(p: string)
    requires PlainPath(p)
    ensures NormalizedPath(p) == Some(CollapseSlashes(DropWPrefix(p)))
  {
    ParsePlainPath(p);
  }

  /** A menu path under `/w/` compares as the same path without it. */
  lemma WPrefixDropped(rest: string)
    requires rest != [] && rest[|rest| - 1] != '/' && Safe(rest)
    requires ':' !in rest && '?' !in rest && '#' !in rest && ';' !in rest
    ensures NormalizedPath("/w/" + rest) == Some(CollapseSlashes("/" + rest))
  {
    WPath(rest);
    PlainPathNormalized("/w/" + rest);
    DropWPrefixOf(rest);
  }

  lemma DropWPrefixOf(rest: string)
    ensures DropWPrefix("/w/" + rest) == "/" + rest
  {
    var p := "/w/" + rest;
    assert p[..3] == "/w/" && p[3..] == rest;
  }

  lemma WPath(rest: string)
    requires rest != [] && rest[|rest| - 1] != '/' && Safe(rest)
    requires ':' !in rest && '?' !in rest && '#' !in rest && ';' !in rest
    ensures PlainPath("/w/" + rest)
  {
    var p := "/w/" + rest;
    assert p[|p| - 1] == rest[|rest| - 1];
    assert Safe("/w/");
    SafeConcat("/w/", rest);
    assert p[..3] == "/w/" && p[3..] == rest;
    assert p[..2] != "//" by { assert p[1] == 'w'; }
  }

  // ---------------------------------------------------------------- _compare_menus

  /** A visible menu link with a text and an `href`. */
  datatype Link = Link(text: string, href: string)

  /** One reported difference; `position` counts links from 1. */
  datatype LinkDiff =
    | TextDiffers(position: nat, original: string, migrated: string)
    | PathDiffers(position: nat, original: string, migrated: string)

  /** What `_compare_menus` answers: `None` (agree), the count message, the list of differences, or an exception. */
  datatype MenuComparison =
    | MenusAgree
    | LinkCountDiffers(original: nat, migrated: nat)
    | LinksDiffer(diffs: seq<LinkDiff>)
    | MenuUrlRaised

  /** Path mismatches that are not reported: both paths are the org chart, or both the chief's agenda. */
  predicate Exempt(a: string, b: string)
  {
    (Contains(a, "organograma") && Contains(b, "organograma"))
    || (Contains(a, "agenda-do-chefe") && Contains(b, "agenda-do-chefe"))
  }

  /**
   * The differences of one pair of links at index `i`; `None` when normalising a URL
   * raises.  `norm` is the URL normalisation, `NormalizedPath` in `_compare_menus`.
   */
  function PairDiffs(i: nat, o: Link, m: Link, norm: string -> Option<string>): Option<seq<LinkDiff>>
  {
    var text := if o.text != m.text then [TextDiffers(i + 1, o.text, m.text)] else [];
    match norm(o.href)
    case None => None
    case Some(op) =>
      match norm(m.href)
      case None => None
      case Some(mp) => Some(text + (if op != mp && !Exempt(op, mp) then [PathDiffers(i + 1, op, mp)] else []))
  }

  /** A pair of links that yields no difference. */
  predicate PairAgrees(o: Link, m: Link, norm: string -> Option<string>)
  {
    && o.text == m.text
    && norm(o.href).Some? && norm(m.href).Some?
    && (norm(o.href) == norm(m.href) || Exempt(norm(o.href).value, norm(m.href).value))
  }

  /** The differences of the first `n` pairs, in order. */
  function LinkDiffs(o: seq<Link>, m: seq<Link>, n: nat, norm: string -> Option<string>): Option<seq<LinkDiff>>
    requires n <= |o| && n <= |m|
  {
    if n == 0 then Some([])
    else
      match LinkDiffs(o, m, n - 1, norm)
      case None => None
      case Some(d) =>
        match PairDiffs(n - 1, o[n - 1], m[n - 1], norm)
        case None => None
        case Some(e) => Some(d + e)
  }

  function MenuComparisonOf(o: seq<Link>, m: seq<Link>, norm: string -> Option<string>): MenuComparison
  {
    if o == [] && m == [] then MenusAgree
    else if |o| != |m| then LinkCountDiffers(|o|, |m|)
    else
      match LinkDiffs(o, m, |o|, norm)
      case None => MenuUrlRaised
      case Some(d) => if d == [] then MenusAgree else LinksDiffer(d)
  }

  /** Once a URL raises, so does the whole comparison. */
  lemma {:induction false} LinkDiffsRaised(o: seq<Link>, m: seq<Link>, i: nat, n: nat, norm: string -> Option<string>)
    requires i <= n <= |o| && n <= |m| && LinkDiffs(o, m, i, norm).None?
    ensures LinkDiffs(o, m, n, norm).None?
    decreases n - i
  {
    if i < n {
      LinkDiffsRaised(o, m, i, n - 1, norm);
    }
  }

  /** The body of the loop of `_compare_menus` for the pair at index `i`. */
  method ComparePair(i: nat, o: Link, m: Link) returns (r: Option<seq<LinkDiff>>)
    ensures r == PairDiffs(i, o, m, NormalizedPath)
  {
    var norm := NormalizedPath;
    var text := if o.text != m.text then [TextDiffers(i + 1, o.text, m.text)] else [];
    var op := NormalizeUrl(o.href);
    assert norm(o.href) == op;
    if op.None? {
      return None;
    }
    var mp := NormalizeUrl(m.href);
    assert norm(m.href) == mp;
    if mp.None? {
      return None;
    }
    var path := if op.value != mp.value && !Exempt(op.value, mp.value) then [PathDiffers(i + 1, op.value, mp.value)] else [];
    r := Some(text + path);
  }

  /** `_compare_menus` over the links the menus show, with its loop. */
  method CompareMenus(o: seq<Link>, m: seq<Link>) returns (r: MenuComparison)
    ensures r == MenuComparisonOf(o, m, NormalizedPath)
  {
    if o == [] && m == [] {
      return MenusAgree;
    }
    if |o| != |m| {
      return LinkCountDiffers(|o|, |m|);
    }
    var diffs := [];
    for i := 0 to |o|
      invariant LinkDiffs(o, m, i, NormalizedPath) == Some(diffs)
    {
      var d := ComparePair(i, o[i], m[i]);
      if d.None? {
        LinkDiffsRaised(o, m, i + 1, |o|, NormalizedPath);
        return MenuUrlRaised;
      }
      diffs := diffs + d.value;
    }
    r := if diffs == [] then MenusAgree else LinksDiffer(diffs);
  }

  lemma PairDiffsEmpty(i: nat, o: Link, m: Link, norm: string -> Option<string>)
    ensures PairDiffs(i, o, m, norm) == Some([]) <==> PairAgrees(o, m, norm)
  {
    if norm(o.href).Some? && norm(m.href).Some? && o.text != m.text {
      assert PairDiffs(i, o, m, norm).value[0] == TextDiffers(i + 1, o.text, m.text);
    }
  }

  lemma {:induction false} LinkDiffsEmpty(o: seq<Link>, m: seq<Link>, n: nat, norm: string -> Option<string>)
    requires n <= |o| && n <= |m|
    ensures LinkDiffs(o, m, n, norm) == Some([]) <==> forall i :: 0 <= i < n ==> PairAgrees(o[i], m[i], norm)
    decreases n
  {
    if n > 0 {
      LinkDiffsEmpty(o, m, n - 1, norm);
      PairDiffsEmpty(n - 1, o[n - 1], m[n - 1], norm);
      if LinkDiffs(o, m, n, norm) == Some([]) {
        var d := LinkDiffs(o, m, n - 1, norm).value;
        var e := PairDiffs(n - 1, o[n - 1], m[n - 1], norm).value;
        assert d + e == [];
        assert d == [] && e == [];
      }
    }
  }

  /**
   * Two menus agree exactly when both are empty, or they have as many links and each
   * pair has the same text and paths that normalise alike or are both exempt.
   */
  lemma MenusAgreeExactly(o: seq<Link>, m: seq<Link>, norm: string -> Option<string>)
    ensures MenuComparisonOf(o, m, norm) == MenusAgree <==>
            (o == [] && m == []) || (|o| == |m| && forall i :: 0 <= i < |o| ==> PairAgrees(o[i], m[i], norm))
  {
    if |o| == |m| {
      LinkDiffsEmpty(o, m, |o|, norm);
    }
  }

  // ---------------------------------------------------------------- _compare_collapsibles

  /** A collapsible section as extracted: its title and its body text. */
  datatype Section = Section(title: string, content: string)

  datatype SectionDiff =
    | TitleDiffers(position: nat, original: string, migrated: string)
    | ContentDiffers(position: nat, title: string)

  datatype CollapsibleComparison =
    | SectionsAgree
    | SectionCountDiffers(original: nat, migrated: nat)
    | SectionsDiffer(diffs: seq<SectionDiff>)

  /** How titles and texts are normalised before they are compared. */
  datatype Normalizers = Normalizers(title: string -> string, text: string -> string)

  /** `_normalize_title` and `_normalize_text`. */
  const Normalization := Normalizers(NormalizeTitle, NormalizeText)

  /** The differences of one pair of sections at index `i`: titles compared normalised, then contents. */
  function SectionPairDiffs(i: nat, o: Section, m: Section, n: Normalizers): seq<SectionDiff>
  {
    (if n.title(o.title) != n.title(m.title) then [TitleDiffers(i + 1, o.title, m.title)] else [])
    + (if n.text(o.content) != n.text(m.content) then [ContentDiffers(i + 1, o.title)] else [])
  }

  function SectionDiffs(o: seq<Section>, m: seq<Section>, k: nat, n: Normalizers): seq<SectionDiff>
    requires k <= |o| && k <= |m|
  {
    if k == 0 then [] else SectionDiffs(o, m, k - 1, n) + SectionPairDiffs(k - 1, o[k - 1], m[k - 1], n)
  }

  function CollapsibleComparisonOf(o: seq<Section>, m: seq<Section>, n: Normalizers): CollapsibleComparison
  {
    if |o| != |m| then SectionCountDiffers(|o|, |m|)
    else
      var d := SectionDiffs(o, m, |o|, n);
      if d == [] then SectionsAgree else SectionsDiffer(d)
  }

  /** The body of the loop of `_compare_collapsibles` for the pair at index `i`. */
  method CompareSections(i: nat, o: Section, m: Section) returns (diffs: seq<SectionDiff>)
    ensures diffs == SectionPairDiffs(i, o, m, Normalization)
  {
    var n := Normalization;
    var titles := if n.title(o.title) != n.title(m.title) then [TitleDiffers(i + 1, o.title, m.title)] else [];
    var texts := if n.text(o.content) != n.text(m.content) then [ContentDiffers(i + 1, o.title)] else [];
    diffs := titles + texts;
  }

  /** `_compare_collapsibles` once the sections are extracted, with its loop. */
  method CompareCollapsibles(o: seq<Section>, m: seq<Section>) returns (r: CollapsibleComparison)
    ensures r == CollapsibleComparisonOf(o, m, Normalization)
  {
    if |o| != |m| {
      return SectionCountDiffers(|o|, |m|);
    }
    var diffs := [];
    for i := 0 to |o|
      invariant diffs == SectionDiffs(o, m, i, Normalization)
    {
      var d := CompareSections(i, o[i], m[i]);
      diffs := diffs + d;
    }
    r := if diffs == [] then SectionsAgree else SectionsDiffer(diffs);
  }

  predicate SectionsMatch(o: Section, m: Section, n: Normalizers)
  {
    n.title(o.title) == n.title(m.title) && n.text(o.content) == n.text(m.content)
  }

  lemma {:induction false} SectionDiffsEmpty(o: seq<Section>, m: seq<Section>, k: nat, n: Normalizers)
    requires k <= |o| && k <= |m|
    ensures SectionDiffs(o, m, k, n) == [] <==> forall i :: 0 <= i < k ==> SectionsMatch(o[i], m[i], n)
    decreases k
  {
    if k > 0 {
      SectionDiffsEmpty(o, m, k - 1, n);
    }
  }

  /**
   * The count is compared before any section; with equal counts the sections agree
   * exactly when every pair has the same normalised title and the same normalised text.
   */
  lemma SectionsAgreeExactly(o: seq<Section>, m: seq<Section>, n: Normalizers)
    ensures |o| != |m| ==> CollapsibleComparisonOf(o, m, n) == SectionCountDiffers(|o|, |m|)
    ensures CollapsibleComparisonOf(o, m, n) == SectionsAgree <==>
            |o| == |m| && forall i :: 0 <= i < |o| ==> SectionsMatch(o[i], m[i], n)
  {
    if |o| == |m| {
      SectionDiffsEmpty(o, m, |o|, n);
    }
  }

  // ---------------------------------------------------------------- _log_validation_error

  /** The log files: general validation, content mismatches, menu mismatches, collapsible mismatches. */
  datatype LogFile = ValidationLog | ContentMismatchLog | MenuMismatchLog | CollapsibleMismatchLog

  const CollapsibleMarker := "Collapsible"
  const ContentMarker := "Conte\U{00FA}do n\U{00E3}o corresponde ao original"
  const MenuMarker := "Menu n\U{00E3}o corresponde ao original"

  /** How `validate_page` opens the details of a main-content mismatch and of a menu mismatch. */
  const MainContentMarker := "C" + MainContentTail
  const MainContentTail := MainContentWords + OriginalWords
  const MainContentWords := "onte\U{00FA}do principal"
  const OriginalWords := " n\U{00E3}o corresponde ao original"
  const MainContentPrefix := MainContentMarker + ":\n"
  const MenuPrefix := "Menu n\U{00E3}o corresponde ao original:\n"

  /**
   * The file an error goes to: by the error type for collapsibles, then by a marker in
   * the details for contents (`contentMarker`) and for menus, else the general log.
   */
  function LogFileWith(contentMarker: string, errorType: string, details: string): LogFile
  {
    if Contains(errorType, CollapsibleMarker) then CollapsibleMismatchLog
    else if Contains(details, contentMarker) then ContentMismatchLog
    else if Contains(details, MenuMarker) then MenuMismatchLog
    else ValidationLog
  }

  /** The routing as written: contents are recognised by `ContentMarker`. */
  function LogFileFor(errorType: string, details: string): LogFile
  {
    LogFileWith(ContentMarker, errorType, details)
  }

  /** The routing as intended: contents are recognised by the marker `validate_page` writes. */
  function LogFileIntended(errorType: string, details: string): LogFile
  {
    LogFileWith(MainContentMarker, errorType, details)
  }

  /** A text that does not start with `m` and has no `m[0]` after its first character does not contain `m`. */
  lemma NotContainedPastHead(s: string, m: string)
    requires s != [] && m != [] && !StartsWith(s, m) && m[0] !in s[1..]
    ensures !Contains(s, m)
  {
    ContainsLacking(s[1..], m, m[0]);
  }

  lemma ContentMismatchNotCollapsible()
    ensures !Contains("Content Mismatch", CollapsibleMarker)
  {
    var s := "Content Mismatch";
    assert s[2] != CollapsibleMarker[2];
    assert s[1..] == "ontent Mismatch";
    NotContainedPastHead(s, CollapsibleMarker);
  }

  /** A collapsible mismatch goes to the collapsible log, whatever its details. */
  lemma CollapsibleMismatchRouted(details: string)
    ensures LogFileFor("Collapsible Mismatch", details) == CollapsibleMismatchLog
    ensures LogFileIntended("Collapsible Mismatch", details) == CollapsibleMismatchLog
  {
    assert "Collapsible Mismatch"[..|CollapsibleMarker|] == CollapsibleMarker;
    ContainsAt("Collapsible Mismatch", CollapsibleMarker, 0);
  }

  lemma MenuPrefixLacksC()
    ensures 'C' !in MenuPrefix
  {
  }

  /** The details of a menu mismatch carry the menu marker and neither content marker. */
  lemma MenuDetailsMarkers(diff: string)
    requires 'C' !in diff
    ensures var details := MenuPrefix + diff;
            !Contains(details, ContentMarker) && !Contains(details, MainContentMarker) && Contains(details, MenuMarker)
  {
    var details := MenuPrefix + diff;
    MenuPrefixLacksC();
    AbsentFromConcat(MenuPrefix, diff, 'C');
    ContainsLacking(details, ContentMarker, 'C');
    ContainsLacking(details, MainContentMarker, 'C');
    assert details[..|MenuMarker|] == MenuMarker;
    ContainsAt(details, MenuMarker, 0);
  }

  /** A menu mismatch, as `validate_page` words it, goes to the menu log. */
  lemma MenuMismatchRouted(diff: string)
    requires 'C' !in diff
    ensures LogFileFor("Menu Mismatch", MenuPrefix + diff) == MenuMismatchLog
    ensures LogFileIntended("Menu Mismatch", MenuPrefix + diff) == MenuMismatchLog
  {
    ContainsLacking("Menu Mismatch", CollapsibleMarker, 'C');
    MenuDetailsMarkers(diff);
  }

  lemma MainContentWordsLack()
    ensures 'C' !in MainContentWords && 'M' !in MainContentWords
  {
  }

  lemma OriginalWordsLack()
    ensures 'C' !in OriginalWords && 'M' !in OriginalWords
  {
  }

  lemma MainContentTailLacks()
    ensures 'C' !in MainContentTail && 'M' !in MainContentTail
  {
    MainContentWordsLack();
    OriginalWordsLack();
    AbsentFromConcat(MainContentWords, OriginalWords, 'C');
    AbsentFromConcat(MainContentWords, OriginalWords, 'M');
  }

  lemma MainContentPrefixShape()
    ensures |MainContentPrefix| > 9 && MainContentPrefix[9] != ContentMarker[9]
    ensures 'C' !in MainContentPrefix[1..] && 'M' !in MainContentPrefix
  {
    MainContentTailLacks();
    assert MainContentPrefix[1..] == MainContentTail + ":\n";
    AbsentFromConcat(MainContentTail, ":\n", 'C');
    AbsentFromConcat(MainContentTail, ":\n", 'M');
    assert MainContentPrefix == "C" + (MainContentTail + ":\n");
    AbsentFromConcat("C", MainContentTail + ":\n", 'M');
  }

  /** The details of a main-content mismatch carry neither `ContentMarker` nor the menu marker. */
  lemma MainContentDetailsMarkers(diff: string)
    requires 'C' !in diff && 'M' !in diff
    ensures var details := MainContentPrefix + diff;
            !Contains(details, ContentMarker) && !Contains(details, MenuMarker)
  {
    var details := MainContentPrefix + diff;
    MainContentPrefixShape();
    assert details[9] != ContentMarker[9];
    assert details[1..] == MainContentPrefix[1..] + diff;
    AbsentFromConcat(MainContentPrefix[1..], diff, 'C');
    NotContainedPastHead(details, ContentMarker);
    AbsentFromConcat(MainContentPrefix, diff, 'M');
    ContainsLacking(details, MenuMarker, 'M');
  }

  /**
   * A main-content mismatch, as `validate_page` words it, reaches the general log and
   * not the content log: its details say "principal" where the router looks for
   * `ContentMarker`.
   */
  lemma MainContentMisrouted(diff: string)
    requires 'C' !in diff && 'M' !in diff
    ensures LogFileFor("Content Mismatch", MainContentPrefix + diff) == ValidationLog
  {
    ContentMismatchNotCollapsible();
    MainContentDetailsMarkers(diff);
  }

  /** With the intended marker the same error reaches the content log, whatever the diff. */
  lemma MainContentRoutedIntended(diff: string)
    ensures LogFileIntended("Content Mismatch", MainContentPrefix + diff) == ContentMismatchLog
  {
    ContentMismatchNotCollapsible();
    ConcatAssoc(MainContentMarker, ":\n", diff);
    ContainsOwnPrefix(MainContentMarker, ":\n" + diff);
    RoutedToContent(MainContentMarker, "Content Mismatch", MainContentPrefix + diff);
  }

  /** A non-collapsible error whose details carry the content marker goes to the content log. */
  lemma RoutedToContent(contentMarker: string, errorType: string, details: string)
    requires !Contains(errorType, CollapsibleMarker) && Contains(details, contentMarker)
    ensures LogFileWith(contentMarker, errorType, details) == ContentMismatchLog
  {
  }

  /** One call of `_log_validation_error`. */
  datatype Report = Report(sourceUrl: string, errorType: string, details: string, migratedUrl: Option<string>)

  /** The entry kept in `errors`. */
  function Message(r: Report): string
  {
    r.errorType + ": " + r.details
  }

  /** `errors` once `message` is recorded for `url`: the list is created when absent, then extended. */
  function Recorded(errors: map<string, seq<string>>, url: string, message: string): (r: map<string, seq<string>>)
    ensures r.Keys == errors.Keys + {url}
    ensures r[url] == (if url in errors then errors[url] else []) + [message]
    ensures forall u :: u in errors && u != url ==> r[u] == errors[u]
  {
    var list := if url in errors then errors[url] else [];
    errors[url := list + [message]]
  }

  /** `errors` after a series of calls on a fresh validator. */
  function ErrorsOf(reports: seq<Report>): map<string, seq<string>>
  {
    if reports == [] then map[]
    else
      var last := reports[|reports| - 1];
      Recorded(ErrorsOf(reports[..|reports| - 1]), last.sourceUrl, Message(last))
  }

  /** The messages of the calls about `url`, in call order. */
  function MessagesFor(reports: seq<Report>, url: string): seq<string>
  {
    if reports == [] then []
    else
      var last := reports[|reports| - 1];
      MessagesFor(reports[..|reports| - 1], url) + (if last.sourceUrl == url then [Message(last)] else [])
  }

  /**
   * `errors` has an entry for exactly the URLs some call was about, holding the
   * messages of those calls in the order they were made.
   */
  lemma {:induction false} ErrorsInCallOrder(reports: seq<Report>, url: string)
    ensures url in ErrorsOf(reports) <==> exists i :: 0 <= i < |reports| && reports[i].sourceUrl == url
    ensures url in ErrorsOf(reports) ==> ErrorsOf(reports)[url] == MessagesFor(reports, url)
    ensures url !in ErrorsOf(reports) ==> MessagesFor(reports, url) == []
    decreases |reports|
  {
    if reports != [] {
      var front := reports[..|reports| - 1];
      ErrorsInCallOrder(front, url);
      assert forall i :: 0 <= i < |front| ==> front[i] == reports[i];
    }
  }

  /** The validator's error state: `errors`, and what each file and the JSON list received. */
  class Validator {
    var errors: map<string, seq<string>>
    /** The text entries written, with the file each went to, in order. */
    var written: seq<(LogFile, Report)>
    /** The JSON list, starting with what the file held. */
    var json: seq<Report>
    /** The calls made so far. */
    ghost var reports: seq<Report>

    ghost predicate Valid()
      reads this
    {
      && errors == ErrorsOf(reports)
      && |written| == |reports|
      && forall i :: 0 <= i < |written| ==>
           written[i] == (LogFileFor(reports[i].errorType, reports[i].details), reports[i])
    }

    constructor(existing: seq<Report>)
      ensures Valid() && reports == [] && written == [] && json == existing
    {
      errors := map[];
      written := [];
      json := existing;
      reports := [];
    }

    /** `_log_validation_error`. */
    method LogValidationError(sourceUrl: string, errorType: string, details: string, migratedUrl: Option<string>)
      requires Valid()
      modifies this
      ensures Valid()
      ensures var r := Report(sourceUrl, errorType, details, migratedUrl);
              && reports == old(reports) + [r]
              && errors == Recorded(old(errors), sourceUrl, Message(r))
              && written == old(written) + [(LogFileFor(errorType, details), r)]
              && json == old(json) + [r]
    {
      var r := Report(sourceUrl, errorType, details, migratedUrl);
      if sourceUrl !in errors {
        errors := errors[sourceUrl := []];
      }
      errors := errors[sourceUrl := errors[sourceUrl] + [errorType + ": " + details]];
      var file := LogFileFor(errorType, details);
      written := written + [(file, r)];
      json := json + [r];
      reports := reports + [r];
      assert reports[..|reports| - 1] == old(reports);
    }
  }
}
