/** Parsing of the `>`-separated hierarchy column of the mapping sheet. */
module HierarchyUtils {
  import opened PyStr

  /** Terms that name the root of the site rather than a page. */
  const IgnoredTerms: set<string> := {"raiz", "hierarquia"}

  /** `[x.strip() for x in parts]`. */
  function StripAll(parts: seq<string>): (r: seq<string>)
    ensures |r| == |parts|
    ensures forall i :: 0 <= i < |r| ==> r[i] == Strip(parts[i])
  {
    seq(|parts|, i requires 0 <= i < |parts| => Strip(parts[i]))
  }

  /** `parse_hierarchy`: the stripped `>`-separated levels, or `['Raiz']` for an empty string. */
  function ParseHierarchy(s: string): (r: seq<string>)
    ensures s == [] ==> r == ["Raiz"]
    ensures s != [] ==> |r| == Count(s, '>') + 1
    ensures forall i :: 0 <= i < |r| ==> '>' !in r[i] && Strip(r[i]) == r[i]
  {
    if s == [] then
      StripUnchanged("Raiz", Whitespace);
      ["Raiz"]
    else
      var parts := Split(s, '>');
      SplitCount(s, '>');
      StrippedLevels(parts, '>');
      StripAll(parts)
  }

  /** Stripped fields are stripped and keep lacking the separator. */
  lemma StrippedLevels(parts: seq<string>, sep: char)
    requires forall i :: 0 <= i < |parts| ==> sep !in parts[i]
    ensures forall i :: 0 <= i < |parts| ==> sep !in StripAll(parts)[i] && Strip(StripAll(parts)[i]) == StripAll(parts)[i]
  {
    forall i | 0 <= i < |parts|
      ensures sep !in StripAll(parts)[i] && Strip(StripAll(parts)[i]) == StripAll(parts)[i]
    {
      StripIdempotent(parts[i], Whitespace);
      StripSubset(parts[i], Whitespace, sep);
    }
  }

  /** The levels of a non-empty hierarchy are the stripped fields between the `>` separators. */
  lemma ParseHierarchyFields(s: string)
    requires s != []
    ensures var fields := Split(s, '>');
      Join(fields, ">") == s &&
      |ParseHierarchy(s)| == |fields| &&
      forall i :: 0 <= i < |fields| ==> ParseHierarchy(s)[i] == Strip(fields[i])
  {
    SplitJoin(s, '>');
  }

  lemma SplitDoubleSeparator()
    ensures Split("A>>B", '>') == ["A", "", "B"]
  {
    var s := "A>>B";
    assert s[1..] == ">>B" && ">>B"[1..] == ">B" && ">B"[1..] == "B" && "B"[1..] == [];
    assert Split([], '>') == [[]];
    SplitStep("B", '>');
    assert "B"[0] == 'B' && ['B'] + [] == "B";
    assert Split("B", '>') == ["B"];
    SplitStep(">B", '>');
    assert Split(">B", '>') == ["", "B"];
    SplitStep(">>B", '>');
    assert Split(">>B", '>') == ["", "", "B"];
    SplitStep(s, '>');
    assert s[0] == 'A' && ['A'] + [] == "A";
    assert Split(s, '>') == [['A'] + Split(">>B", '>')[0]] + Split(">>B", '>')[1..];
    assert Split(">>B", '>')[1..] == ["", "B"];
  }

  /** Empty interior levels are kept as `''`. */
  lemma ParseHierarchyKeepsEmptyLevels()
    ensures ParseHierarchy("A>>B") == ["A", "", "B"]
  {
    SplitDoubleSeparator();
    StripUnchanged("A", Whitespace);
    StripUnchanged("B", Whitespace);
    StripUnchanged("", Whitespace);
    var parts := ["A", "", "B"];
    var r := StripAll(parts);
    assert |r| == 3 && r[0] == "A" && r[1] == "" && r[2] == "B";
    assert r == ["A", "", "B"];
  }

  /** Removes the ignored terms, compared case-insensitively, keeping the order. */
  function RemoveIgnored(levels: seq<string>): seq<string>
  {
    if levels == [] then []
    else (if Lower(levels[0]) in IgnoredTerms then [] else [levels[0]]) + RemoveIgnored(levels[1..])
  }

  /** The comprehension of `filter_hierarchy` over the raw fields. */
  function KeepLevels(parts: seq<string>): (r: seq<string>)
    ensures forall x :: x in r ==> Lower(x) !in IgnoredTerms
  {
    if parts == [] then []
    else
      var item := Strip(parts[0]);
      (if Lower(item) in IgnoredTerms then [] else [item]) + KeepLevels(parts[1..])
  }

  /** `filter_hierarchy`: the levels without the root terms; `[]` for an empty string. */
  function FilterHierarchy(s: string): (r: seq<string>)
    ensures s == [] ==> r == []
    ensures forall x :: x in r ==> Lower(x) !in IgnoredTerms
  {
    if s == [] then [] else KeepLevels(Split(s, '>'))
  }

  lemma {:induction false} KeepLevelsIsRemoveIgnored(parts: seq<string>)
    ensures KeepLevels(parts) == RemoveIgnored(StripAll(parts))
  {
    if parts != [] {
      KeepLevelsIsRemoveIgnored(parts[1..]);
      assert StripAll(parts)[1..] == StripAll(parts[1..]);
    }
  }

  /** For a non-empty string, filtering is parsing followed by removing the root terms. */
  lemma FilterIsParseWithoutRoot(s: string)
    requires s != []
    ensures FilterHierarchy(s) == RemoveIgnored(ParseHierarchy(s))
  {
    KeepLevelsIsRemoveIgnored(Split(s, '>'));
  }

  /** A level survives the filter exactly when it is not a root term. */
  lemma {:induction false} RemoveIgnoredMembers(levels: seq<string>, x: string)
    ensures x in RemoveIgnored(levels) <==> x in levels && Lower(x) !in IgnoredTerms
  {
    if levels != [] {
      RemoveIgnoredMembers(levels[1..], x);
      assert levels == [levels[0]] + levels[1..];
    }
  }
}
