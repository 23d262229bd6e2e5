/**
 * `PageProcessor`: the friendly URL of a page (an NFKD-folded, lower-case slug of
 * letters, digits and single hyphens) and the display name of a page (title-cased words).
 */
module PageProcessor {
  import opened PyStr
  import TextLib
  import WordCase

  // ---------------------------------------------------------------- friendly URL

  /** The characters the pattern `[a-zA-Z0-9-]` accepts. */
  predicate IsUrlChar(c: char) { IsAsciiLetter(c) || IsDigit(c) || c == '-' }

  /** The characters a friendly URL is made of: `[a-z0-9-]`. */
  predicate IsSlugChar(c: char) { 'a' <= c <= 'z' || IsDigit(c) || c == '-' }

  /** `re.sub(r'[^a-zA-Z0-9-]', '-', s)`. */
  function HyphenateOthers(s: string): (r: string)
    ensures |r| == |s|
    ensures forall i :: 0 <= i < |s| ==> r[i] == if IsUrlChar(s[i]) then s[i] else '-'
  {
    if s == [] then [] else [if IsUrlChar(s[0]) then s[0] else '-'] + HyphenateOthers(s[1..])
  }

  /** What `normalize_friendly_url` promises of its result. */
  predicate IsFriendlyUrl(r: string)
  {
    && (forall i :: 0 <= i < |r| ==> IsSlugChar(r[i]))
    && NoDoubled(r, '-')
    && (r != [] ==> r[0] != '-' && r[|r| - 1] != '-')
  }

  /** The hyphen-collapsed text before `.strip('-')`. */
  function Slug(title: string): string
  {
    Collapse(HyphenateOthers(TextLib.DropCombining(TextLib.Nfkd(title))), {'-'}, '-')
  }

  /** `PageProcessor.normalize_friendly_url(title)`. */
  function NormalizeFriendlyUrl(title: string): string
  {
    Lower(StripChars(Slug(title), {'-'}))
  }

  /** Every character of `c` is one the pattern accepts. */
  predicate UrlChars(c: string) { forall i :: 0 <= i < |c| ==> IsUrlChar(c[i]) }

  /** After the substitutions: only pattern characters, and no doubled hyphen. */
  lemma SlugShape(title: string)
    ensures UrlChars(Slug(title)) && NoDoubled(Slug(title), '-')
  {
    var h := HyphenateOthers(TextLib.DropCombining(TextLib.Nfkd(title)));
    var c := Collapse(h, {'-'}, '-');
    forall i | 0 <= i < |c| ensures IsUrlChar(c[i]) {
      CollapseChars(h, {'-'}, '-', c[i]);
    }
    CollapseNoDoubled(h, {'-'}, '-');
  }

  /** `.strip('-')` keeps the characters and removes hyphens at both ends. */
  lemma StripHyphensShape(c: string)
    requires UrlChars(c) && NoDoubled(c, '-')
    ensures UrlChars(StripChars(c, {'-'})) && NoDoubled(StripChars(c, {'-'}), '-')
    ensures var s := StripChars(c, {'-'}); s != [] ==> s[0] != '-' && s[|s| - 1] != '-'
  {
    var s := StripChars(c, {'-'});
    var k := |c| - |LStrip(c, {'-'})|;
    StripCharsSlice(c, {'-'});
    NoDoubledSlice(c, '-', k, k + |s|);
    UrlCharsSlice(c, k, k + |s|);
    StripEnds(c, {'-'});
  }

  lemma UrlCharsSlice(c: string, i: nat, j: nat)
    requires UrlChars(c) && i <= j <= |c|
    ensures UrlChars(c[i..j])
  {
    forall k | 0 <= k < j - i ensures IsUrlChar(c[i..j][k]) {
      assert c[i..j][k] == c[i + k];
    }
  }

  /** Lower-casing turns pattern characters into slug characters and keeps hyphens where they are. */
  lemma LowerSlugShape(s: string)
    requires UrlChars(s) && NoDoubled(s, '-')
    requires s != [] ==> s[0] != '-' && s[|s| - 1] != '-'
    ensures IsFriendlyUrl(Lower(s))
  {
    var r := Lower(s);
    assert |r| == |s|;
    forall i | 0 <= i < |r| ensures IsSlugChar(r[i]) && (r[i] == '-' <==> s[i] == '-') {
      assert r[i] == LowerChar(s[i]);
    }
    assert NoDoubled(r, '-') by {
      forall i | 0 <= i < |r| - 1 ensures !(r[i] == '-' && r[i + 1] == '-') {
        assert r[i] == '-' <==> s[i] == '-';
        assert r[i + 1] == '-' <==> s[i + 1] == '-';
      }
    }
  }

  /** Every friendly URL is made of `[a-z0-9-]`, with no doubled, leading or trailing hyphen. */
  lemma FriendlyUrlSound(title: string)
    ensures IsFriendlyUrl(NormalizeFriendlyUrl(title))
  {
    SlugShape(title);
    StripHyphensShape(Slug(title));
    LowerSlugShape(StripChars(Slug(title), {'-'}));
  }

  lemma {:induction false} DropCombiningUnchanged(s: string)
    requires forall i :: 0 <= i < |s| ==> !TextLib.IsCombining(s[i])
    ensures TextLib.DropCombining(s) == s
  {
    if s != [] {
      DropCombiningUnchanged(s[1..]);
      assert s == [s[0]] + s[1..];
    }
  }

  /** A friendly URL is its own friendly URL. */
  lemma FriendlyUrlFixpoint(r: string)
    requires IsFriendlyUrl(r)
    ensures NormalizeFriendlyUrl(r) == r
  {
    TextLib.NfkdAscii(r);
    DropCombiningUnchanged(r);
    assert HyphenateOthers(r) == r;
    CollapseSingleton(r, '-');
    StripUnchanged(r, {'-'});
    LowerOfSlug(r);
  }

  /** A text of slug characters is its own lower case. */
  lemma LowerOfSlug(r: string)
    requires forall i :: 0 <= i < |r| ==> IsSlugChar(r[i])
    ensures Lower(r) == r
  {
    forall i | 0 <= i < |r| ensures Lower(r)[i] == r[i] {
      assert Lower(r)[i] == LowerChar(r[i]);
    }
  }

  /** `normalize_friendly_url` is idempotent, for every title. */
  lemma FriendlyUrlIdempotent(title: string)
    ensures NormalizeFriendlyUrl(NormalizeFriendlyUrl(title)) == NormalizeFriendlyUrl(title)
  {
    FriendlyUrlSound(title);
    FriendlyUrlFixpoint(NormalizeFriendlyUrl(title));
  }

  // ---------------------------------------------------------------- page name

  /**
   * The connectives of `normalize_page_name` as written: the set holds `"Ã©"`, the UTF-8
   * bytes of `é` read as Latin-1, where `é` was meant.
   */
  const LowerWordsAsWritten: set<string> := {"de", "da", "do", "das", "dos", "e", "\U{00C3}\U{00A9}", "em"}

  /** The connectives with `é` spelled as intended. */
  const LowerWords: set<string> := {"de", "da", "do", "das", "dos", "e", "\U{00E9}", "em"}

  /** `normalize_page_name` over a given set of connectives. */
  function PageNameWith(title: string, lowerWords: set<string>): (r: string)
    ensures r == [] <==> Strip(title) == []
  {
    var words := SplitWs(Strip(title));
    SplitStripEmpty(title);
    if words == [] then []
    else
      var r := Join(WordCase.FormatWords(words, lowerWords), " ");
      JoinStartsWithFirst(WordCase.FormatWords(words, lowerWords), " ");
      WordCase.FormatWordIsWord(words[0], 0, lowerWords);
      r
  }

  /** Splitting the page name gives one formatted word per word of the title, in order. */
  lemma PageNameWords(title: string, lowerWords: set<string>)
    ensures SplitWs(PageNameWith(title, lowerWords)) == WordCase.FormatWords(SplitWs(Strip(title)), lowerWords)
  {
    WordCase.FormattedWordsSplit(SplitWs(Strip(title)), lowerWords);
  }

  /** `PageProcessor.normalize_page_name(title)` exactly as written, with `"Ã©"`. */
  function NormalizePageNameAsWritten(title: string): (r: string)
    ensures r == [] <==> Strip(title) == []
  {
    PageNameWith(title, LowerWordsAsWritten)
  }

  /** `PageProcessor.normalize_page_name(title)` with the connective `é` spelled as intended. */
  function NormalizePageName(title: string): (r: string)
    ensures r == [] <==> Strip(title) == []
  {
    PageNameWith(title, LowerWords)
  }

  /** The words of a page name are the title's words, each formatted, in order. */
  lemma NormalizePageNameWords(title: string)
    ensures SplitWs(NormalizePageName(title)) == WordCase.FormatWords(SplitWs(Strip(title)), LowerWords)
  {
    PageNameWords(title, LowerWords);
  }

  /**
   * The mojibake entry can never match: words are lower-cased before the lookup, and the
   * lower case of any word never contains the capital `Ã`.
   */
  lemma MojibakeNeverMatches(w: string)
    ensures Lower(w) != "\U{00C3}\U{00A9}"
  {
    if |w| == 2 {
      assert Lower(w)[0] == LowerChar(w[0]) != '\U{00C3}';
    }
  }

  /** As written, every connective set lookup behaves as if `é` were an ordinary word. */
  lemma AsWrittenIgnoresMojibake(word: string, index: nat)
    ensures WordCase.FormatWord(word, index, LowerWordsAsWritten)
         == WordCase.FormatWord(word, index, LowerWordsAsWritten - {"\U{00C3}\U{00A9}"})
  {
    MojibakeNeverMatches(word);
  }

  /** The words of the example title. */
  lemma ExampleWords()
    ensures SplitWs(Strip("a \U{00E9}")) == ["a", "\U{00E9}"]
  {
    var t := "a \U{00E9}";
    assert Join(["a", "\U{00E9}"], " ") == t;
    SplitJoinWords(["a", "\U{00E9}"]);
    StripUnchanged(t, Whitespace);
  }

  /** How `é` is cased after the first word, as written and as intended. */
  lemma ExampleSecondWord()
    ensures WordCase.FormatWord("\U{00E9}", 1, LowerWordsAsWritten) == "\U{00C9}"
    ensures WordCase.FormatWord("\U{00E9}", 1, LowerWords) == "\U{00E9}"
  {
    var w := "\U{00E9}";
    assert Lower(w) == w;
    assert Capitalize(w) == "\U{00C9}";
    assert w != "\U{00C3}\U{00A9}";
    assert w !in WordCase.UpperWords;
    assert w !in LowerWordsAsWritten;
    assert w in LowerWords;
  }

  /** A title with words names a page of those words, formatted and joined by single spaces. */
  lemma PageNameOfWords(title: string, lowerWords: set<string>)
    requires SplitWs(Strip(title)) != []
    ensures PageNameWith(title, lowerWords) == Join(WordCase.FormatWords(SplitWs(Strip(title)), lowerWords), " ")
  {
  }

  /** The first word of the example. */
  lemma ExampleFirstWord(lowerWords: set<string>)
    ensures WordCase.FormatWord("a", 0, lowerWords) == "A"
  {
    assert Lower("a") == "a" && Capitalize("a") == "A";
    assert "a" !in WordCase.UpperWords;
  }

  /** A title of two words names the page of the two formatted words joined by a space. */
  lemma PageNameOfPair(title: string, lowerWords: set<string>, first: string, second: string)
    requires SplitWs(Strip(title)) == [first, second]
    ensures PageNameWith(title, lowerWords)
         == WordCase.FormatWord(first, 0, lowerWords) + " " + WordCase.FormatWord(second, 1, lowerWords)
  {
    var formatted := WordCase.FormatWords([first, second], lowerWords);
    assert formatted == [WordCase.FormatWord(first, 0, lowerWords), WordCase.FormatWord(second, 1, lowerWords)];
    PageNameOfWords(title, lowerWords);
    JoinPair(formatted[0], formatted[1], " ");
  }

  /** A two-word title whose words format to the letters `a` and `b` names the page `a b`. */
  lemma PairSpelled(title: string, lowerWords: set<string>, first: string, second: string, a: char, b: char)
    requires SplitWs(Strip(title)) == [first, second]
    requires WordCase.FormatWord(first, 0, lowerWords) == [a] && WordCase.FormatWord(second, 1, lowerWords) == [b]
    ensures PageNameWith(title, lowerWords) == [a, ' ', b]
  {
    PageNameOfPair(title, lowerWords, first, second);
    assert [a] + " " + [b] == [a, ' ', b];
  }

  /** As written, a title of the words `a é` becomes `"A É"`: the connective is capitalised. */
  lemma MojibakeAsWritten(title: string)
    requires SplitWs(Strip(title)) == ["a", "\U{00E9}"]
    ensures NormalizePageNameAsWritten(title) == "A \U{00C9}"
  {
    ExampleFirstWord(LowerWordsAsWritten);
    ExampleSecondWord();
    PairSpelled(title, LowerWordsAsWritten, "a", "\U{00E9}", 'A', '\U{00C9}');
    assert NormalizePageNameAsWritten(title) == PageNameWith(title, LowerWordsAsWritten);
  }

  /** As intended, a title of the words `a é` becomes `"A é"`: the connective stays lower case. */
  lemma MojibakeIntended(title: string)
    requires SplitWs(Strip(title)) == ["a", "\U{00E9}"]
    ensures NormalizePageName(title) == "A \U{00E9}"
  {
    ExampleFirstWord(LowerWords);
    ExampleSecondWord();
    PairSpelled(title, LowerWords, "a", "\U{00E9}", 'A', '\U{00E9}');
    assert NormalizePageName(title) == PageNameWith(title, LowerWords);
  }

  /** The input that shows it: `"a é"` becomes `"A É"` as written, `"A é"` as intended. */
  lemma MojibakeExample()
    ensures NormalizePageNameAsWritten("a \U{00E9}") == "A \U{00C9}"
    ensures NormalizePageName("a \U{00E9}") == "A \U{00E9}"
  {
    ExampleWords();
    MojibakeAsWritten("a \U{00E9}");
    MojibakeIntended("a \U{00E9}");
  }

  /** Casing of the page-name words, acronyms first, then connectives after the first word. */
  lemma PageNameCasing(title: string, i: nat)
    requires i < |SplitWs(Strip(title))|
    ensures |SplitWs(NormalizePageName(title))| == |SplitWs(Strip(title))|
    ensures var w := Lower(SplitWs(Strip(title))[i]);
      SplitWs(NormalizePageName(title))[i]
        == if w in WordCase.UpperWords then Upper(w)
           else if w in LowerWords && i > 0 then w
           else Capitalize(w)
  {
    NormalizePageNameWords(title);
  }
}
