/** Liferay folder-name rules: validation and cleaning, and title normalisation. */
module FolderNameValidator {
  import opened Wrappers
  import opened PyStr
  import TextLib
  import WordCase

  /** Windows device names, refused as folder names. */
  const ReservedWords: set<string> :=
    {"con", "prn", "aux", "nul",
     "com1", "com2", "com3", "com4", "com5", "com6", "com7", "com8", "com9",
     "lpt1", "lpt2", "lpt3", "lpt4", "lpt5", "lpt6", "lpt7", "lpt8", "lpt9"}

  /** Membership in `ReservedWords`: the four device names, or `com`/`lpt` followed by one digit 1-9. */
  predicate IsReserved(w: string)
  {
    (|w| == 3 && (w == "con" || w == "prn" || w == "aux" || w == "nul"))
    || (|w| == 4 && (w[..3] == "com" || w[..3] == "lpt") && '1' <= w[3] <= '9')
  }

  /** Characters replaced by `-`, in the order they are replaced. */
  const InvalidChars: seq<char> := ['\\', '/', ':', '*', '?', '"', '<', '>', '|', '!', '$', '%', '^', '&', '+']

  /** Endings that are stripped. */
  const InvalidEndings: seq<string> := ["..", ".", "-", " "]

  /** The characters `rstrip('.- ')` removes. */
  const EndingChars: set<char> := {'.', '-', ' '}

  /** Sequences replaced by `-`, in the order they are replaced. */
  const InvalidPatterns: seq<string> := ["../", "/..", "//"]

  const MaxLength: nat := 255

  /** The name used when no title survives validation. */
  const FallbackName: string := "pasta_sem_nome"

  /** Connectives that stay lower-case after the first word of a folder name. */
  const LowerWords: set<string> := {"de", "da", "do", "das", "dos", "e", "em"}

  // ---------------------------------------------------------------- the cleaning steps

  /** `for char in chars: s = s.replace(char, '-')`. */
  function ReplaceEach(s: string, chars: seq<char>): string
    decreases |chars|
  {
    if chars == [] then s else ReplaceEach(Replace(s, [chars[0]], "-"), chars[1..])
  }

  /** `for p in patterns: s = s.replace(p, '-')`. */
  function ReplacePatterns(s: string, patterns: seq<string>): string
    decreases |patterns|
  {
    if patterns == [] then s else ReplacePatterns(Replace(s, patterns[0], "-"), patterns[1..])
  }

  /** Membership in `InvalidChars`, spelled out. */
  predicate IsInvalidChar(c: char)
  {
    c == '\\' || c == '/' || c == ':' || c == '*' || c == '?' || c == '"' || c == '<' || c == '>'
    || c == '|' || c == '!' || c == '$' || c == '%' || c == '^' || c == '&' || c == '+'
  }

  lemma InvalidCharsMembers(c: char)
    ensures c in InvalidChars <==> IsInvalidChar(c)
  {
  }

  predicate IsControl(c: char) { c as int < 32 || c as int == 127 }

  /** The characters of `s` that are not control characters. */
  function DropControl(s: string): string
  {
    if s == [] then [] else (if IsControl(s[0]) then [] else [s[0]]) + DropControl(s[1..])
  }

  /** `any(s.endswith(end) for end in endings)`. */
  predicate EndsWithAny(s: string, endings: seq<string>)
  {
    exists i :: 0 <= i < |endings| && EndsWith(s, endings[i])
  }

  /** The loop guard over the invalid endings is a test of the last character. */
  lemma EndsWithInvalid(s: string)
    ensures EndsWithAny(s, InvalidEndings) <==> s != [] && s[|s| - 1] in EndingChars
  {
    if s != [] && s[|s| - 1] in EndingChars {
      var k := if s[|s| - 1] == '.' then 1 else if s[|s| - 1] == '-' then 2 else 3;
      assert s[|s| - 1..] == [s[|s| - 1]];
      assert EndsWith(s, InvalidEndings[k]);
    }
    if EndsWithAny(s, InvalidEndings) {
      var i :| 0 <= i < |InvalidEndings| && EndsWith(s, InvalidEndings[i]);
      assert s[|s| - 1] == InvalidEndings[i][|InvalidEndings[i]| - 1];
    }
  }

  /** `re.sub(r'[^\w\s]', '', s)`: keeps letters, digits, `_` and whitespace. */
  function RemoveNonWord(s: string): string
  {
    if s == [] then []
    else (if IsAlnum(s[0]) || s[0] == '_' || s[0] in Whitespace then [s[0]] else []) + RemoveNonWord(s[1..])
  }

  // ---------------------------------------------------------------- specification

  /** What a successfully cleaned folder name looks like. */
  predicate IsCleanFolderName(r: string)
  {
    1 <= |r| <= MaxLength
    && AllAllowed(r)
    && NoDoubled(r, '-') && NoDoubled(r, '.')
    && r[|r| - 1] !in EndingChars
  }

  /** `validate_and_clean_folder_name`, step by step; `None` when the name is refused. */
  function CleanFolderName(name: string): (r: Option<string>)
    ensures Strip(name) == [] ==> r == None
    ensures IsReserved(Lower(Strip(name))) ==> r == None
    ensures r.Some? ==> IsCleanFolderName(r.value)
  {
    var stripped := Strip(name);
    if stripped == [] || IsReserved(Lower(stripped)) then None
    else
      var c := Finished(Cleaned(stripped));
      CleanedAllowed(stripped);
      CleanSound(Cleaned(stripped));
      if |c| < 1 || |c| > MaxLength then None else Some(c)
  }

  /** The steps before the ending strip: transliterate, replace, drop control characters, collapse spaces, replace patterns. */
  function Cleaned(stripped: string): string
  {
    var s1 := ReplaceEach(TextLib.Unidecode(stripped), InvalidChars);
    var s2 := DropControl(s1);
    var s3 := Collapse(s2, Whitespace, ' ');
    ReplacePatterns(s3, InvalidPatterns)
  }

  predicate Allowed(c: char) { !IsInvalidChar(c) && !IsControl(c) }

  lemma {:induction false} ReplaceEachChars(s: string, chars: seq<char>, c: char)
    ensures c in ReplaceEach(s, chars) ==> (c in s && c !in chars) || c == '-'
    decreases |chars|
  {
    if chars != [] {
      var s' := Replace(s, [chars[0]], "-");
      ReplaceEachChars(s', chars[1..], c);
      ReplaceChars(s, [chars[0]], "-", c);
      if c == chars[0] && c != '-' { ReplaceRemoves(s, c, "-"); }
    }
  }

  lemma {:induction false} ReplacePatternsChars(s: string, patterns: seq<string>, c: char)
    ensures c in ReplacePatterns(s, patterns) ==> c in s || c == '-'
    decreases |patterns|
  {
    if patterns != [] {
      ReplacePatternsChars(Replace(s, patterns[0], "-"), patterns[1..], c);
      ReplaceChars(s, patterns[0], "-", c);
    }
  }

  lemma {:induction false} DropControlChars(s: string, c: char)
    ensures c in DropControl(s) ==> c in s && !IsControl(c)
  {
    if s != [] { DropControlChars(s[1..], c); }
  }

  predicate AllAllowed(s: string) { forall c :: c in s ==> Allowed(c) }

  predicate NoInvalidChar(s: string) { forall c :: c in s ==> !IsInvalidChar(c) }

  lemma ReplaceEachSound(u: string)
    ensures NoInvalidChar(ReplaceEach(u, InvalidChars))
  {
    forall c | c in ReplaceEach(u, InvalidChars) ensures !IsInvalidChar(c) {
      ReplaceEachChars(u, InvalidChars, c);
      InvalidCharsMembers(c);
    }
  }

  lemma DropControlSound(s: string)
    requires NoInvalidChar(s)
    ensures AllAllowed(DropControl(s))
  {
    forall c | c in DropControl(s) ensures Allowed(c) { DropControlChars(s, c); }
  }

  lemma CollapseSpacesSound(s: string)
    requires AllAllowed(s)
    ensures AllAllowed(Collapse(s, Whitespace, ' '))
  {
    forall c | c in Collapse(s, Whitespace, ' ') ensures Allowed(c) { CollapseChars(s, Whitespace, ' ', c); }
  }

  lemma ReplacePatternsSound(s: string)
    requires AllAllowed(s)
    ensures AllAllowed(ReplacePatterns(s, InvalidPatterns))
  {
    forall c | c in ReplacePatterns(s, InvalidPatterns) ensures Allowed(c) {
      ReplacePatternsChars(s, InvalidPatterns, c);
    }
  }

  /** Every character left by the first steps is allowed in a folder name. */
  lemma CleanedAllowed(stripped: string)
    ensures AllAllowed(Cleaned(stripped))
  {
    var s1 := ReplaceEach(TextLib.Unidecode(stripped), InvalidChars);
    ReplaceEachSound(TextLib.Unidecode(stripped));
    DropControlSound(s1);
    CollapseSpacesSound(DropControl(s1));
    ReplacePatternsSound(Collapse(DropControl(s1), Whitespace, ' '));
  }

  /** The hyphen collapse, the ending strip and the dot collapse. */
  function Finished(s: string): string
  {
    Collapse(RStrip(Collapse(s, {'-'}, '-'), EndingChars), {'.'}, '.')
  }

  lemma CleanSound(s: string)
    ensures var c := Finished(s); AllAllowed(s) && 1 <= |c| <= MaxLength ==> IsCleanFolderName(c)
  {
    if AllAllowed(s) { FinishedSound(s); }
  }

  lemma FinishedSound(s: string)
    requires AllAllowed(s)
    ensures var f := Finished(s);
      AllAllowed(f) &&
      NoDoubled(f, '-') && NoDoubled(f, '.') && (f != [] ==> f[|f| - 1] !in EndingChars)
  {
    var s5 := Collapse(s, {'-'}, '-');
    forall c | c in s5 ensures Allowed(c) { CollapseChars(s, {'-'}, '-', c); }
    CollapseNoDoubled(s, {'-'}, '-');
    var s6 := RStrip(s5, EndingChars);
    assert NoDoubled(s6, '-') by {
      forall i | 0 <= i < |s6| - 1 ensures !(s6[i] == '-' && s6[i + 1] == '-') {
        assert s6[i] == s5[i] && s6[i + 1] == s5[i + 1];
      }
    }
    var s7 := Collapse(s6, {'.'}, '.');
    forall c | c in s7 ensures Allowed(c) { CollapseChars(s6, {'.'}, '.', c); }
    CollapseNoDoubled(s6, {'.'}, '.');
    CollapseKeepsNoDoubled(s6, {'.'}, '.', '-');
    if s6 != [] { CollapseLast(s6, {'.'}, '.'); }
  }

  // ---------------------------------------------------------------- the imperative validator

  /** The loop over `INVALID_CHARS`. */
  method ReplaceInvalidChars(name: string) returns (cleaned: string)
    ensures cleaned == ReplaceEach(name, InvalidChars)
  {
    cleaned := name;
    var i := 0;
    while i < |InvalidChars|
      invariant 0 <= i <= |InvalidChars|
      invariant ReplaceEach(cleaned, InvalidChars[i..]) == ReplaceEach(name, InvalidChars)
    {
      assert InvalidChars[i..][1..] == InvalidChars[i + 1..];
      cleaned := Replace(cleaned, [InvalidChars[i]], "-");
      i := i + 1;
    }
    assert InvalidChars[i..] == [];
  }

  /** The loop over `INVALID_PATTERNS`. */
  method ReplaceInvalidPatterns(name: string) returns (cleaned: string)
    ensures cleaned == ReplacePatterns(name, InvalidPatterns)
  {
    cleaned := name;
    var j := 0;
    while j < |InvalidPatterns|
      invariant 0 <= j <= |InvalidPatterns|
      invariant ReplacePatterns(cleaned, InvalidPatterns[j..]) == ReplacePatterns(name, InvalidPatterns)
    {
      assert InvalidPatterns[j..][1..] == InvalidPatterns[j + 1..];
      cleaned := Replace(cleaned, InvalidPatterns[j], "-");
      j := j + 1;
    }
    assert InvalidPatterns[j..] == [];
  }

  /** The loop that strips invalid endings; each round removes at least one character. */
  method StripInvalidEndings(name: string) returns (cleaned: string)
    ensures cleaned == RStrip(name, EndingChars)
  {
    cleaned := name;
    EndsWithInvalid(cleaned);
    while EndsWithAny(cleaned, InvalidEndings)
      invariant RStrip(cleaned, EndingChars) == RStrip(name, EndingChars)
      invariant EndsWithAny(cleaned, InvalidEndings) <==> cleaned != [] && cleaned[|cleaned| - 1] in EndingChars
      decreases |cleaned|
    {
      cleaned := RStrip(cleaned, EndingChars);
      EndsWithInvalid(cleaned);
    }
  }

  /** `FolderNameValidator.validate_and_clean_folder_name`. */
  method ValidateAndCleanFolderName(name: string) returns (r: Option<string>)
    ensures r == CleanFolderName(name)
    ensures r.Some? ==> IsCleanFolderName(r.value)
  {
    if Strip(name) == [] {
      return None;
    }
    var cleaned := Strip(name);
    if IsReserved(Lower(cleaned)) {
      return None;
    }
    ghost var stripped := cleaned;
    cleaned := TextLib.Unidecode(cleaned);
    cleaned := ReplaceInvalidChars(cleaned);
    cleaned := DropControl(cleaned);
    cleaned := Collapse(cleaned, Whitespace, ' ');
    cleaned := ReplaceInvalidPatterns(cleaned);
    assert cleaned == Cleaned(stripped);
    cleaned := Collapse(cleaned, {'-'}, '-');
    cleaned := StripInvalidEndings(cleaned);
    cleaned := Collapse(cleaned, {'.'}, '.');
    assert cleaned == Finished(Cleaned(stripped));
    if |cleaned| < 1 || |cleaned| > MaxLength {
      return None;
    }
    return Some(cleaned);
  }

  // ---------------------------------------------------------------- normalisation

  /** `normalize_folder_name(title)`: title-case the words, validate, retry without punctuation, fall back. */
  function NormalizeFolderName(title: string): (r: string)
    ensures r == [] <==> Strip(title) == []
    ensures r != [] ==> r == FallbackName || IsCleanFolderName(r)
  {
    if title == [] then []
    else
      var words := SplitWs(Strip(title));
      SplitStripEmpty(title);
      if words == [] then []
      else
        var formatted := Join(WordCase.FormatWords(words, LowerWords), " ");
        var validated := CleanFolderName(formatted);
        var retried := if validated.Some? then validated else CleanFolderName(RemoveNonWord(formatted));
        if retried.Some? then retried.value else FallbackName
  }

  /**
   * The name handed to the validator has one word per word of the title, each cased by
   * the rules: acronyms in capitals, connectives after the first word in lower case,
   * every other word capitalised.
   */
  lemma FormattedFolderTitle(title: string)
    ensures var words := SplitWs(Strip(title));
      var parts := SplitWs(Join(WordCase.FormatWords(words, LowerWords), " "));
      |parts| == |words| &&
      forall i :: 0 <= i < |words| ==>
        var w := Lower(words[i]);
        parts[i] == (if w in WordCase.UpperWords then Upper(w)
                     else if w in LowerWords && i > 0 then w
                     else Capitalize(w))
  {
    WordCase.FormattedWordsSplit(SplitWs(Strip(title)), LowerWords);
  }
}
